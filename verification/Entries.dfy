/** The life of a pending handshake: where it comes from, who may install it, and what an installation leaves. */
module Entries {
  import opened Bytes
  import opened Machine
  import opened Effects

  /* What every step keeps */

  ghost predicate Numbered(s: State) {
    && (forall h :: h in s.pending ==> s.pending[h].ref < s.next)
    && (forall h, k :: h in s.pending && k in s.pending && h != k ==> s.pending[h].ref != s.pending[k].ref)
    && (forall r :: r in s.open ==> r < s.next)
  }

  // The callback of an entry is outstanding exactly while the entry is installing and not accepted,
  // and an accepted entry keeps no PSK.
  ghost predicate Tracked(s: State) {
    forall h :: h in s.pending ==>
      var p := s.pending[h];
      && (p.accepted ==> p.installing && p.psk == ZERO_KEY)
      && (p.ref in s.open <==> p.installing && !p.accepted)
      && (p.ref in s.open ==> s.open[p.ref] == h)
  }

  // At most one entry per source is marked installing.
  ghost predicate Exclusive(s: State) {
    forall h, k :: h in s.pending && k in s.pending && s.pending[h].installing && s.pending[k].installing
      ==> s.pending[h].source == s.pending[k].source ==> h == k
  }

  ghost predicate Orderly(s: State) { Numbered(s) && Tracked(s) && Exclusive(s) }

  lemma {:induction false} InsertOrderly(s: State, h: Hash, p: Entry)
    requires Orderly(s) && p.ref == s.next && !p.accepted && !p.installing
    ensures Orderly(s.(pending := s.pending[h := p], next := s.next + 1))
  {
  }

  lemma {:induction false} OrderlySame(s: State, s': State)
    requires Orderly(s) && s'.pending == s.pending && s'.open == s.open && s'.next == s.next
    ensures Orderly(s')
  {
  }

  lemma {:induction false} HelloOrderly(s: State, full: Full, o: Outcome, e: Event)
    requires e.Handle? && e.msg.Hello? && Orderly(s) && EntryEffect(s, full, o, e)
    ensures Orderly(o.state)
  {
    if o.stage.Accepted? {
      var p := NewEntry(s, e.source, e.now, e.msg, o.stage.id);
      InsertOrderly(s, o.stage.hash, p);
      OrderlySame(s.(pending := s.pending[o.stage.hash := p], next := s.next + 1), o.state);
    } else {
      OrderlySame(s, o.state);
    }
  }

  // Handing out h removes its competitors, so it is alone in installing for its source.
  lemma {:induction false} GrantOrderly(s: State, h: Hash)
    requires Orderly(s) && h in s.pending && !s.pending[h].installing
    ensures Orderly(s.(pending := (s.pending - Competing(s.pending, h))[h := s.pending[h].(installing := true)],
                       open := s.open[s.pending[h].ref := h]))
  {
  }

  lemma {:induction false} FinishOrderly(s: State, source: Key, m: Message)
    requires m.Finish? && Orderly(s)
    ensures Orderly(FinishStep(s, source, m).state)
  {
    if FinishStep(s, source, m).stage.Granted? {
      GrantOrderly(s, m.hash);
    }
  }

  lemma {:induction false} CommitOrderly(s: State, h: Hash)
    requires Orderly(s) && h in s.pending && s.pending[h].ref in s.open
    ensures Orderly(s.(open := s.open - {s.pending[h].ref},
                       pending := s.pending[h := s.pending[h].(psk := ZERO_KEY, accepted := true)]))
  {
  }

  lemma {:induction false} RemoveOrderly(s: State, ref: nat, gone: set<Hash>)
    requires Orderly(s) && forall h :: h in s.pending && s.pending[h].ref == ref ==> h in gone
    ensures Orderly(s.(open := s.open - {ref}, pending := s.pending - gone))
  {
  }

  lemma {:induction false} InstalledOrderly(s: State, ref: nat, ok: bool)
    requires Orderly(s)
    ensures Orderly(InstalledStep(s, ref, ok))
  {
    if ref in s.open {
      var h := s.open[ref];
      if h !in s.pending || s.pending[h].ref != ref {
        RemoveOrderly(s, ref, {});
        assert s.pending - {} == s.pending;
      } else if ok {
        CommitOrderly(s, h);
      } else {
        RemoveOrderly(s, ref, {h});
      }
    }
  }

  lemma {:induction false} PruneOrderly(s: State, now: int)
    requires Orderly(s)
    ensures Orderly(PruneState(s, now))
  {
  }

  lemma {:induction false} HelloKeepsOrder(s: State, e: Event)
    requires e.Handle? && e.msg.Hello? && Orderly(s)
    ensures var p := PruneState(s, e.now);
            Orderly(HelloStep(p, Fullness(p, e.msg), e.source, e.now, e.msg, e.choice).state)
  {
    var p := PruneState(s, e.now);
    var full := Fullness(p, e.msg);
    PruneOrderly(s, e.now);
    HelloEntries(p, full, e);
    HelloOrderly(p, full, HelloStep(p, full, e.source, e.now, e.msg, e.choice), e);
  }

  lemma {:induction false} FinishKeepsOrder(s: State, e: Event)
    requires e.Handle? && e.msg.Finish? && Orderly(s)
    ensures Orderly(FinishStep(PruneState(s, e.now), e.source, e.msg).state)
  {
    PruneOrderly(s, e.now);
    FinishOrderly(PruneState(s, e.now), e.source, e.msg);
  }

  lemma {:induction false} HandleOrderly(s: State, e: Event)
    requires e.Handle? && Orderly(s)
    ensures Orderly(HandleStep(s, e.source, e.now, e.msg, e.choice).state)
  {
    match e.msg
    case Malformed =>
    case Foreign => PruneOrderly(s, e.now);
    case Finish(_, _, _) => FinishKeepsOrder(s, e);
    case Hello(_, _, _, _, _, _, _, _, _) => HelloKeepsOrder(s, e);
  }

  lemma {:induction false} StepOrderly(s: State, e: Event)
    requires Orderly(s)
    ensures Orderly(Step(s, e).state)
  {
    match e
    case Handle(_, _, _, _) => HandleOrderly(s, e);
    case Expire(now) => PruneOrderly(s, now);
    case Installed(_, ref, ok) => InstalledOrderly(s, ref, ok);
    case Close(_) =>
  }

  /* How an entry relates to the step before */

  // The same handshake, possibly further along.
  ghost predicate Advanced(p: Entry, q: Entry) {
    && q == p.(psk := q.psk, accepted := q.accepted, installing := q.installing)
    && (q.psk == p.psk || q.accepted) && (p.installing ==> q.installing) && (p.accepted ==> q.accepted)
  }

  ghost predicate Kept(s: State, s': State, h: Hash) {
    h in s.pending && h in s'.pending && Advanced(s.pending[h], s'.pending[h])
  }

  // A hello accepted in this step created the entry at h.
  ghost predicate Created(s: State, e: Event, o: Outcome, h: Hash) {
    && e.Handle? && e.msg.Hello? && e.msg.offer.Some? && e.msg.offer.value.hash == h
    && e.msg.sound && e.msg.signed && Timely(e.msg.stamp, e.now)
    && o.stage.Accepted? && o.stage == Accepted(o.stage.id, s.next, h) && e.msg.peer == Some(o.stage.id)
    && h in o.state.pending && o.state.pending[h] == NewEntry(s, e.source, e.now, e.msg, o.stage.id)
    && o.state.next == s.next + 1
  }

  ghost predicate Explained(s: State, e: Event, o: Outcome) {
    && s.next <= o.state.next
    && (o.stage.Accepted? ==> Created(s, e, o, o.stage.hash))
    && (forall h :: h in o.state.pending ==> Kept(s, o.state, h) || Created(s, e, o, h))
    && (e.Close? ==> o.state.pending == map[])
  }

  lemma {:induction false} HelloExplained(s: State, e: Event)
    requires e.Handle? && e.msg.Hello?
    ensures var p := PruneState(s, e.now);
            Explained(s, e, HelloStep(p, Fullness(p, e.msg), e.source, e.now, e.msg, e.choice))
  {
    var p := PruneState(s, e.now);
    HelloEntries(p, Fullness(p, e.msg), e);
  }

  lemma {:induction false} FinishExplained(s: State, e: Event)
    requires e.Handle? && e.msg.Finish?
    ensures Explained(s, e, FinishStep(PruneState(s, e.now), e.source, e.msg))
  {
    var p := PruneState(s, e.now);
    var t := FinishStep(p, e.source, e.msg).state;
    forall h | h in t.pending ensures Kept(s, t, h) {
      FinishKept(p, e.source, e.msg, h);
      assert h in p.pending && p.pending[h] == s.pending[h];
    }
  }

  lemma {:induction false} FinishKept(p: State, source: Key, m: Message, h: Hash)
    requires m.Finish? && h in FinishStep(p, source, m).state.pending
    ensures Kept(p, FinishStep(p, source, m).state, h)
  {
    var o := FinishStep(p, source, m);
    if o.stage.Granted? {
      GrantKept(p.pending, m.hash, p.pending[m.hash].(installing := true), h);
    } else {
      assert o.state == p;
    }
  }

  lemma {:induction false} GrantKept(pending: map<Hash, Entry>, h: Hash, e: Entry, k: Hash)
    requires k in (pending - Competing(pending, h))[h := e]
    ensures k != h ==> k in pending && (pending - Competing(pending, h))[h := e][k] == pending[k]
  {
  }

  lemma {:induction false} HandleExplained(s: State, e: Event)
    requires e.Handle?
    ensures Explained(s, e, HandleStep(s, e.source, e.now, e.msg, e.choice))
  {
    if e.msg.Hello? {
      HelloExplained(s, e);
    } else if e.msg.Finish? {
      FinishExplained(s, e);
    }
  }

  lemma {:induction false} InstalledExplained(s: State, e: Event)
    requires e.Installed?
    ensures Explained(s, e, Drop(InstalledStep(s, e.ref, e.ok), Idle))
  {
  }

  lemma {:induction false} StepExplained(s: State, e: Event)
    ensures Explained(s, e, Step(s, e))
  {
    match e
    case Handle(_, _, _, _) => HandleExplained(s, e);
    case Installed(_, _, _) => InstalledExplained(s, e);
    case Expire(_) =>
    case Close(_) =>
  }

  /* Sessions and acknowledgements */

  // A handed-out session is a copy of a live entry of the same source, which was not handed out before.
  ghost predicate GrantFrom(s: State, e: Event, o: Outcome) {
    o.session.Some? ==>
      var x := o.session.value;
      && e.Handle? && e.msg.Finish? && e.msg.hash == x.hash && o.reply.Acknowledge?
      && x.hash in s.pending && e.now < s.pending[x.hash].expires
      && var p := s.pending[x.hash];
         && p.source == e.source && e.msg.known(p.peer) && e.msg.proves(p.hk) && !p.installing && !p.accepted
         && x == Session(p.ref, x.hash, p.peer, p.keys, p.psk)
  }

  // An acknowledgement answers a proven finish for a live entry of its source; without a session, an accepted one.
  ghost predicate AckFrom(s: State, e: Event, o: Outcome) {
    o.reply.Acknowledge? ==>
      && e.Handle? && e.msg.Finish? && e.msg.hash in s.pending
      && var p := s.pending[e.msg.hash];
         && p.source == e.source && e.msg.known(p.peer) && e.msg.proves(p.hk) && e.now < p.expires
         && o.reply == Acknowledge(e.msg.hash, p.hk) && (o.session.None? ==> p.accepted)
  }

  lemma {:induction false} FinishAnswers(s: State, e: Event)
    requires e.Handle? && e.msg.Finish?
    ensures var o := FinishStep(PruneState(s, e.now), e.source, e.msg);
            GrantFrom(s, e, o) && AckFrom(s, e, o)
  {
  }

  lemma {:induction false} HandleAnswers(s: State, e: Event)
    requires e.Handle?
    ensures var o := HandleStep(s, e.source, e.now, e.msg, e.choice);
            GrantFrom(s, e, o) && AckFrom(s, e, o)
  {
    if e.msg.Finish? {
      FinishAnswers(s, e);
    } else if e.msg.Hello? {
      var p := PruneState(s, e.now);
      HelloEntries(p, Fullness(p, e.msg), e);
    }
  }

  lemma {:induction false} StepAnswers(s: State, e: Event)
    ensures GrantFrom(s, e, Step(s, e)) && AckFrom(s, e, Step(s, e))
  {
    if e.Handle? { HandleAnswers(s, e); }
  }

  // A callback is outstanding because this step handed out its session, or was before.
  ghost predicate OpenFrom(s: State, o: Outcome, r: nat) {
    r in o.state.open ==>
      || (r in s.open && o.state.open[r] == s.open[r])
      || (o.session.Some? && o.session.value.ref == r && o.session.value.hash == o.state.open[r])
  }

  lemma {:induction false} FinishOpens(s: State, e: Event, r: nat)
    requires e.Handle? && e.msg.Finish?
    ensures OpenFrom(s, FinishStep(PruneState(s, e.now), e.source, e.msg), r)
  {
  }

  lemma {:induction false} HandleOpens(s: State, e: Event, r: nat)
    requires e.Handle?
    ensures OpenFrom(s, HandleStep(s, e.source, e.now, e.msg, e.choice), r)
  {
    if e.msg.Hello? {
      var p := PruneState(s, e.now);
      HelloEntries(p, Fullness(p, e.msg), e);
    } else if e.msg.Finish? {
      FinishOpens(s, e, r);
    }
  }

  lemma {:induction false} StepOpens(s: State, e: Event, r: nat)
    ensures OpenFrom(s, Step(s, e), r)
  {
    if e.Handle? { HandleOpens(s, e, r); }
  }

  // A response frame is the offer just made or one kept with a pending entry.
  ghost predicate ResponseFrom(s: State, e: Event, o: Outcome) {
    o.reply.Respond? ==>
      || (e.Handle? && e.msg.Hello? && e.msg.offer.Some? && o.reply.frame == e.msg.offer.value.response)
      || (exists h :: h in s.pending && o.reply.frame == s.pending[h].response)
  }

  lemma {:induction false} HandleResponds(s: State, e: Event)
    requires e.Handle?
    ensures ResponseFrom(s, e, HandleStep(s, e.source, e.now, e.msg, e.choice))
  {
    if e.msg.Hello? {
      HelloResponds(s, e);
    }
  }

  lemma {:induction false} HelloResponds(s: State, e: Event)
    requires e.Handle? && e.msg.Hello?
    ensures var p := PruneState(s, e.now);
            ResponseFrom(s, e, HelloStep(p, Fullness(p, e.msg), e.source, e.now, e.msg, e.choice))
  {
    var p := PruneState(s, e.now);
    HelloEntries(p, Fullness(p, e.msg), e);
    assert forall h :: h in p.pending ==> h in s.pending && s.pending[h] == p.pending[h];
  }

  lemma {:induction false} StepResponds(s: State, e: Event)
    ensures ResponseFrom(s, e, Step(s, e))
  {
    if e.Handle? { HandleResponds(s, e); }
  }

  // Entries of this source that can still be handed out are younger than r; r itself is spent.
  ghost predicate Settled(s: State, source: Key, r: nat) {
    && r < s.next
    && forall h :: h in s.pending ==>
         && (s.pending[h].ref == r ==> s.pending[h].installing)
         && (s.pending[h].source == source ==> r <= s.pending[h].ref)
  }

  lemma {:induction false} SettledStep(s: State, o: Outcome, e: Event, source: Key, r: nat)
    requires Explained(s, e, o) && Settled(s, source, r)
    ensures Settled(o.state, source, r)
  {
  }

  lemma {:induction false} FinishSettles(p: State, source: Key, m: Message)
    requires m.Finish? && Orderly(p) && FinishStep(p, source, m).session.Some?
    ensures Settled(FinishStep(p, source, m).state, source, FinishStep(p, source, m).session.value.ref)
  {
  }

  lemma {:induction false} StepSettles(s: State, e: Event)
    requires Orderly(s) && Step(s, e).session.Some?
    ensures e.Handle? && Settled(Step(s, e).state, e.source, Step(s, e).session.value.ref)
  {
    StepAnswers(s, e);
    PruneOrderly(s, e.now);
    FinishSettles(PruneState(s, e.now), e.source, e.msg);
  }

  // Acceptance r has left the table for good.
  ghost predicate Gone(s: State, r: nat) {
    r < s.next && forall h :: h in s.pending ==> s.pending[h].ref != r
  }

  lemma {:induction false} GoneStep(s: State, o: Outcome, e: Event, r: nat)
    requires Explained(s, e, o) && Gone(s, r)
    ensures Gone(o.state, r)
  {
  }

  lemma {:induction false} FailureRemoves(s: State, ref: nat)
    requires Orderly(s) && ref in s.open
    ensures Gone(InstalledStep(s, ref, false), ref)
  {
  }

  // Only a first Installed(true) accepts an entry.
  ghost predicate Commits(s: State, e: Event, p: Entry) {
    e.Installed? && e.ok && e.ref == p.ref && e.ref in s.open
  }

  ghost predicate Accounted(s: State, e: Event, s': State, h: Hash) {
    h in s'.pending && s'.pending[h].accepted ==>
      (h in s.pending && s.pending[h].accepted) || Commits(s, e, s'.pending[h])
  }

  lemma {:induction false} FinishAccounted(s: State, e: Event, h: Hash)
    requires e.Handle? && e.msg.Finish?
    ensures Accounted(s, e, FinishStep(PruneState(s, e.now), e.source, e.msg).state, h)
  {
  }

  lemma {:induction false} HelloAccounted(s: State, e: Event, h: Hash)
    requires e.Handle? && e.msg.Hello?
    ensures var p := PruneState(s, e.now);
            Accounted(s, e, HelloStep(p, Fullness(p, e.msg), e.source, e.now, e.msg, e.choice).state, h)
  {
    var p := PruneState(s, e.now);
    HelloEntries(p, Fullness(p, e.msg), e);
  }

  lemma {:induction false} HandleAccounted(s: State, e: Event, h: Hash)
    requires e.Handle?
    ensures Accounted(s, e, HandleStep(s, e.source, e.now, e.msg, e.choice).state, h)
  {
    if e.msg.Hello? { HelloAccounted(s, e, h); } else if e.msg.Finish? { FinishAccounted(s, e, h); }
  }

  lemma {:induction false} StepAccounted(s: State, e: Event, h: Hash)
    ensures Accounted(s, e, Step(s, e).state, h)
  {
    if e.Handle? { HandleAccounted(s, e, h); }
  }

  /* The replay table */

  // An entry of the replay table stays until its time is over.
  ghost predicate Remembers(s: State, s': State, now: int, key: Hash) {
    key in s.replay && now < s.replay[key] ==> key in s'.replay && s'.replay[key] == s.replay[key]
  }

  lemma {:induction false} HelloRemembers(s: State, e: Event, key: Hash)
    requires e.Handle? && e.msg.Hello?
    ensures var p := PruneState(s, e.now);
            Remembers(s, HelloStep(p, Fullness(p, e.msg), e.source, e.now, e.msg, e.choice).state, e.now, key)
  {
    var p := PruneState(s, e.now);
    HelloRates(p, Fullness(p, e.msg), e);
    HelloEntries(p, Fullness(p, e.msg), e);
  }

  lemma {:induction false} FinishRemembers(s: State, e: Event, key: Hash)
    requires e.Handle? && e.msg.Finish?
    ensures Remembers(s, FinishStep(PruneState(s, e.now), e.source, e.msg).state, e.now, key)
  {
  }

  lemma {:induction false} HandleRemembers(s: State, e: Event, key: Hash)
    requires e.Handle?
    ensures Remembers(s, HandleStep(s, e.source, e.now, e.msg, e.choice).state, e.now, key)
  {
    if e.msg.Hello? { HelloRemembers(s, e, key); } else if e.msg.Finish? { FinishRemembers(s, e, key); }
  }

  lemma {:induction false} StepRemembers(s: State, e: Event, key: Hash)
    requires !e.Close?
    ensures Remembers(s, Step(s, e).state, e.now, key)
  {
    if e.Handle? { HandleRemembers(s, e, key); }
  }

  // An accepted hello was timely, not remembered, and is remembered for five minutes.
  ghost predicate Records(s: State, e: Event, o: Outcome) {
    o.stage.Accepted? ==>
      && e.Handle? && e.msg.Hello? && Timely(e.msg.stamp, e.now)
      && e.msg.replay in o.state.replay && o.state.replay[e.msg.replay] == e.now + REPLAY_LIFE
      && (e.msg.replay in s.replay ==> s.replay[e.msg.replay] <= e.now)
  }

  lemma {:induction false} HelloRecords(s: State, e: Event)
    requires e.Handle? && e.msg.Hello?
    ensures var p := PruneState(s, e.now);
            Records(s, e, HelloStep(p, Fullness(p, e.msg), e.source, e.now, e.msg, e.choice))
  {
    var p := PruneState(s, e.now);
    HelloRates(p, Fullness(p, e.msg), e);
    HelloEntries(p, Fullness(p, e.msg), e);
  }

  lemma {:induction false} StepRecords(s: State, e: Event)
    ensures Records(s, e, Step(s, e))
  {
    if e.Handle? && e.msg.Hello? { HelloRecords(s, e); }
  }
}
