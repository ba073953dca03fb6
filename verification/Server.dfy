/** The bootstrap server as the object it is. Every method is proved to take the step Machine describes,
    on the message Handshake reads from the packet. */
module Server {
  import opened Bytes
  import opened Collections
  import opened Wire
  import opened Crypto
  import opened Bucket
  import opened Machine
  import opened Handshake
  import opened Choices
  import opened Runs
  import Budgets
  import opened Erasure
  import T = Table

  /* Loops over value tables */

  method ExpireReplay(replay: map<Hash, int>, now: int) returns (kept: map<Hash, int>)
    ensures kept == LiveReplay(replay, now)
  {
    kept := replay;
    var todo := replay.Keys;
    while todo != {}
      invariant todo <= replay.Keys
      invariant kept == replay - (set h | h in replay && h !in todo && now >= replay[h])
    {
      var h :| h in todo;
      if now >= replay[h] {
        kept := kept - {h};
      }
      todo := todo - {h};
    }
  }

  method PruneBuckets(table: map<Key, Bucket>, now: int) returns (kept: map<Key, Bucket>)
    ensures kept == Prune(table, now)
  {
    kept := table;
    var todo := table.Keys;
    while todo != {}
      invariant todo <= table.Keys
      invariant kept == table - (set k | k in table && k !in todo && now - table[k].start > SECOND)
    {
      var k :| k in todo;
      if now - table[k].start > SECOND {
        kept := kept - {k};
      }
      todo := todo - {k};
    }
  }

  // No bucket starts at Go's zero time.
  ghost predicate Started(table: map<Key, Bucket>) { forall k :: k in table ==> table[k].start != ZERO_TIME }

  // Removes an entry with minimal start; the scan tells "none yet" by the zero time, so this needs Started.
  method EvictOldest(table: map<Key, Bucket>) returns (left: map<Key, Bucket>, victim: Option<Key>)
    ensures left == if victim.Some? then table - {victim.value} else table
    ensures Started(table) && table != map[] ==> victim.Some? && Oldest(table, victim.value)
  {
    var key, oldest, todo := ZERO_KEY, ZERO_TIME, table.Keys;
    while todo != {}
      invariant todo <= table.Keys
      invariant oldest != ZERO_TIME ==> key in table && table[key].start == oldest
      invariant Started(table) && oldest == ZERO_TIME ==> todo == table.Keys
      invariant Started(table) ==> forall k :: k in table && k !in todo ==> oldest <= table[k].start
    {
      var k :| k in todo;
      if oldest == ZERO_TIME || table[k].start < oldest {
        key, oldest := k, table[k].start;
      }
      todo := todo - {k};
    }
    if oldest == ZERO_TIME {
      return table, None;
    }
    return table - {key}, Some(key);
  }

  method ChargeTable(table: map<Key, Bucket>, k: Key, now: int) returns (after: map<Key, Bucket>, ok: bool, victim: Key)
    ensures (after, ok) == Charge(table, k, now, Single, |table| >= MAX_TABLE, victim)
    ensures Started(table) && k !in table && |table| >= MAX_TABLE ==> Oldest(table, victim)
  {
    after, victim := table, k;
    if k !in table && |table| >= MAX_TABLE {
      var evicted;
      after, evicted := EvictOldest(table);
      victim := if evicted.Some? then evicted.value else k;
      assert k !in table && table - {k} == table;
    }
    var charged := Allow(Get(after, k), now, Single);
    after, ok := after[k := charged.0], charged.1;
  }

  method ResolveTag(su: Suite, auth: Auth, tag: Key, nonce: Key) returns (who: Option<(Key, Bytes)>)
    ensures who == Resolve(su, auth, tag, nonce)
  {
    var i := 0;
    while i < |auth|
      invariant 0 <= i <= |auth| && Resolve(su, auth, tag, nonce) == Resolve(su, auth[i..], tag, nonce)
    {
      if PeerTag(su, auth[i].0, nonce) == tag {
        return Some(auth[i]);
      }
      i := i + 1;
    }
    return None;
  }

  method LookupKey(auth: Auth, id: Key) returns (pub: Bytes)
    ensures pub == Lookup(auth, id)
  {
    var i := 0;
    while i < |auth|
      invariant 0 <= i <= |auth| && Lookup(auth, id) == Lookup(auth[i..], id)
    {
      if auth[i].0 == id {
        return auth[i].1;
      }
      i := i + 1;
    }
    return [];
  }

  // The checks up to the shared budget; Idle when they all pass.
  ghost function Early(limits: map<Key, Bucket>, global: Bucket, full: bool, source: Key, now: int, m: Message,
                       victim: Key): Stage
    requires m.Hello?
  {
    if !m.sound then BadFields
    else if !Timely(m.stamp, now) then BadStamp
    else if !Charge(limits, source, now, Single, full, victim).1 then SenderLimited
    else if m.peer.None? then Unresolved
    else if !Allow(global, now, Shared).1 then GlobalLimited
    else Idle
  }

  // The flags tell which of these tables are at capacity.
  ghost predicate Measured(replay: map<Hash, int>, pending: map<Hash, Entry>, peerLimits: map<Key, Bucket>, full: Full,
                           m: Message)
    requires m.Hello? && m.peer.Some?
  {
    && full.replay == (|replay| >= MAX_REPLAY) && full.pending == (|pending| >= MAX_PENDING)
    && full.peer == (|peerLimits| >= MAX_TABLE) && full.quota == (|Owned(pending, m.peer.value)| >= MAX_OWNED)
  }

  // What the last checks and the recording of an accepted hello do to a state.
  ghost predicate Concluded(t: State, u: State, quota: bool, source: Key, now: int, m: Message, id: Key, stage: Stage)
    requires m.Hello?
  {
    && stage == (if quota then PeerQuota(id)
                 else if !m.kemValid then BadKemKey(id)
                 else if m.offer.None? then Failed(id)
                 else Accepted(id, t.next, m.offer.value.hash))
    && (if stage.Accepted? then
          u == t.(pending := t.pending[stage.hash := NewEntry(t, source, now, m, id)], next := t.next + 1,
                  replay := t.replay[m.replay := now + REPLAY_LIFE])
        else u == t)
  }

  // What the checks from the signature on do to a state.
  ghost predicate Authenticated(t: State, u: State, full: Full, source: Key, now: int, m: Message, id: Key,
                                stage: Stage, peer: Key)
    requires m.Hello?
  {
    if !m.signed then u == t && stage == BadSignature else
    var (table, ok) := Charge(t.peerLimits, id, now, Single, full.peer, peer);
    && (full.peer && id !in t.peerLimits && Started(t.peerLimits) ==> Oldest(t.peerLimits, peer))
    && if !ok then u == t.(peerLimits := table) && stage == PeerLimited(id)
       else Concluded(t.(peerLimits := table), u, full.quota, source, now, m, id, stage)
  }

  // What the call from the replay check on does to a state, and what it answers.
  ghost predicate Rest(t: State, u: State, full: Full, source: Key, now: int, m: Message, stage: Stage,
                       reply: Option<Bytes>, peer: Key, cached: Hash)
    requires m.Hello? && m.peer.Some?
  {
    if m.replay in t.replay then
      && u == t
      && stage == (if IsCached(t, source, m, cached) then Retransmitted else Replayed)
      && reply == (if stage.Retransmitted? then Some(t.pending[cached].response) else None)
      && ((exists h :: IsCached(t, source, m, h)) ==> IsCached(t, source, m, cached))
    else if full.replay || full.pending then
      u == t && stage == (if full.replay then ReplayFull else PendingFull) && reply == None
    else
      && Authenticated(t, u, full, source, now, m, m.peer.value, stage, peer)
      && reply == if stage.Accepted? then Some(m.offer.value.response) else None
  }

  // What the whole call does and answers, and that the choices it made are ones iteration can make.
  ghost predicate Outcomes(s: State, u: State, full: Full, source: Key, now: int, m: Message, choice: Choice,
                           reply: Option<Bytes>, stage: Stage)
    requires m.Hello?
  {
    var o := HelloStep(s, full, source, now, m, choice);
    && u == o.state && stage == o.stage
    && reply == (if o.reply.Respond? then Some(o.reply.frame) else None)
    && (Started(s.limits) && Started(s.peerLimits) ==> Made(s, full, source, now, m, choice))
  }

  // What the checks up to the shared budget do to a state.
  ghost predicate Admitted(s: State, t: State, full: bool, source: Key, now: int, m: Message, stage: Stage, sender: Key)
    requires m.Hello?
  {
    && stage == Early(s.limits, s.global, full, source, now, m, sender)
    && t == s.(limits := if stage.BadFields? || stage.BadStamp? then s.limits
                         else Charge(s.limits, source, now, Single, full, sender).0,
               global := if stage.GlobalLimited? || stage.Idle? then Allow(s.global, now, Shared).0 else s.global)
    && (stage.BadFields? || stage.BadStamp?
        || (source !in s.limits && full && Started(s.limits) ==> Oldest(s.limits, sender)))
  }

  // A call refused up to the shared budget.
  lemma {:induction false} Refused(s: State, t: State, full: Full, source: Key, now: int, m: Message, stage: Stage,
                                   sender: Key)
    requires m.Hello?
    requires Admitted(s, t, full.sender, source, now, m, stage, sender) && !stage.Idle?
    ensures Outcomes(s, t, full, source, now, m, Choice(sender, sender, m.digest), None, stage)
  {
    assert Verdict(s, full, source, now, m, Choice(sender, sender, m.digest)) == stage;
  }

  // s after the charges of a call that passed the shared budget.
  ghost function AfterCharges(s: State, full: Full, source: Key, now: int, sender: Key): State {
    s.(limits := Charge(s.limits, source, now, Single, full.sender, sender).0, global := Allow(s.global, now, Shared).0)
  }

  lemma {:induction false} PassedRepeat(s: State, full: Full, source: Key, now: int, m: Message, stage: Stage,
                                        c: Choice)
    requires m.Hello? && m.peer.Some? && Early(s.limits, s.global, full.sender, source, now, m, c.sender).Idle?
    requires source !in s.limits && full.sender && Started(s.limits) ==> Oldest(s.limits, c.sender)
    requires m.replay in s.replay && stage == (if IsCached(s, source, m, c.cached) then Retransmitted else Replayed)
    requires (exists h :: IsCached(s, source, m, h)) ==> IsCached(s, source, m, c.cached)
    ensures Verdict(s, full, source, now, m, c) == stage
    ensures HelloState(s, full, source, now, m, c, stage) == AfterCharges(s, full, source, now, c.sender)
    ensures Started(s.limits) ==> Made(s, full, source, now, m, c)
  {
  }

  lemma {:induction false} PassedFull(s: State, full: Full, source: Key, now: int, m: Message, stage: Stage, c: Choice)
    requires m.Hello? && m.peer.Some? && Early(s.limits, s.global, full.sender, source, now, m, c.sender).Idle?
    requires source !in s.limits && full.sender && Started(s.limits) ==> Oldest(s.limits, c.sender)
    requires m.replay !in s.replay && (full.replay || full.pending)
             && stage == (if full.replay then ReplayFull else PendingFull)
    ensures Verdict(s, full, source, now, m, c) == stage
    ensures HelloState(s, full, source, now, m, c, stage) == AfterCharges(s, full, source, now, c.sender)
    ensures Started(s.limits) ==> Made(s, full, source, now, m, c)
  {
  }

  // The checks from the signature on, as Verdict makes them.
  ghost function Late(peerLimits: map<Key, Bucket>, next: nat, full: Full, now: int, m: Message, id: Key,
                      peer: Key): Stage
    requires m.Hello?
  {
    if !m.signed then BadSignature
    else if !Charge(peerLimits, id, now, Single, full.peer, peer).1 then PeerLimited(id)
    else if full.quota then PeerQuota(id)
    else if !m.kemValid then BadKemKey(id)
    else if m.offer.None? then Failed(id)
    else Accepted(id, next, m.offer.value.hash)
  }

  lemma {:induction false} LateVerdict(s: State, full: Full, source: Key, now: int, m: Message, c: Choice)
    requires m.Hello? && m.peer.Some? && Early(s.limits, s.global, full.sender, source, now, m, c.sender).Idle?
    requires m.replay !in s.replay && !full.replay && !full.pending
    ensures Verdict(s, full, source, now, m, c) == Late(s.peerLimits, s.next, full, now, m, m.peer.value, c.peer)
  {
  }

  lemma {:induction false} LateStage(t: State, u: State, full: Full, source: Key, now: int, m: Message, id: Key,
                                     stage: Stage, peer: Key)
    requires m.Hello? && Authenticated(t, u, full, source, now, m, id, stage, peer)
    ensures stage == Late(t.peerLimits, t.next, full, now, m, id, peer)
    ensures GlobalAdmitted(stage) && (PeerTried(stage) ==> stage.id == id) && !stage.Replayed? && !stage.Retransmitted?
  {
  }

  lemma {:induction false} PassedOn(s: State, t: State, u: State, full: Full, source: Key, now: int, m: Message,
                                    stage: Stage, c: Choice)
    requires m.Hello? && m.peer.Some? && Admitted(s, t, full.sender, source, now, m, Idle, c.sender)
    requires m.replay !in s.replay && !full.replay && !full.pending
    requires Authenticated(t, u, full, source, now, m, m.peer.value, stage, c.peer)
    ensures Outcomes(s, u, full, source, now, m, c, if stage.Accepted? then Some(m.offer.value.response) else None,
                     stage)
  {
    LateStage(t, u, full, source, now, m, m.peer.value, stage, c.peer);
    LateVerdict(s, full, source, now, m, c);
    assert HelloState(s, full, source, now, m, c, stage) == u;
  }

  // A call that passed the shared budget.
  lemma {:induction false} Passed(s: State, t: State, u: State, full: Full, source: Key, now: int, m: Message,
                                  stage: Stage, reply: Option<Bytes>, c: Choice)
    requires m.Hello? && m.peer.Some? && Admitted(s, t, full.sender, source, now, m, Idle, c.sender)
    requires Rest(t, u, full, source, now, m, stage, reply, c.peer, c.cached)
    ensures Outcomes(s, u, full, source, now, m, c, reply, stage)
  {
    if m.replay in s.replay {
      assert forall h :: IsCached(s, source, m, h) == IsCached(t, source, m, h);
      PassedRepeat(s, full, source, now, m, stage, c);
    } else if full.replay || full.pending {
      PassedFull(s, full, source, now, m, stage, c);
    } else {
      PassedOn(s, t, u, full, source, now, m, stage, c);
    }
  }

  ghost predicate Ends(s: State, e: Event, o: Outcome) { o == Step(s, e) }

  // Event e took the step from s to u with this answer, by choices iteration can make, and an entry was
  // displaced (`after` but not `before`) only if the step displaces one.
  ghost predicate Taken(su: Suite, s: State, u: State, e: Event, reply: Option<Bytes>, session: Option<Session>,
                        before: bool, after: bool) {
    forall o {:trigger Ends(s, e, o)} :: Ends(s, e, o) ==>
      && u == o.state && reply == ReplyBytes(su, o.reply) && session == o.session
      && (Started(s.limits) && Started(s.peerLimits) ==> Feasible(s, e))
      && (after ==> before || Clashing(s, e))
  }

  lemma {:induction false} PrunedStarted(s: State, now: int)
    requires Started(s.limits) && Started(s.peerLimits)
    ensures Started(PruneState(s, now).limits) && Started(PruneState(s, now).peerLimits)
  {
  }

  // In every run under a clock that never reads the zero time, eviction finds a truly oldest entry.
  lemma {:induction false} RunsStart(run: seq<Event>)
    requires Clocked(run)
    ensures Started(After(Step, run).limits) && Started(After(Step, run).peerLimits)
  {
    Budgets.StepKeepsFunded();
    Budgets.RunFunded(Step, run, |run|);
    assert run[..|run|] == run;
  }

  // A message that makes no choices.
  lemma {:induction false} AnyChoice(s: State, source: Key, now: int, m: Message) returns (c: Choice)
    requires !m.Hello?
    ensures Feasible(s, Machine.Handle(source, now, m, c))
  {
    var p := PruneState(s, now);
    var a := SomeOldest(p.limits, source);
    var b := SomeOldest(p.peerLimits, source);
    c := Choice(a, b, Zeros(48));
  }

  lemma {:induction false} Finished(su: Suite, s: State, u: State, source: Key, now: int, m: Message,
                                    reply: Option<Bytes>, session: Option<Session>,
                                    clashed: bool)
    returns (c: Choice)
    requires m.Finish?
    requires var o := FinishStep(PruneState(s, now), source, m);
             u == o.state && reply == ReplyBytes(su, o.reply) && session == o.session
    ensures Taken(su, s, u, Machine.Handle(source, now, m, c), reply, session, clashed, clashed)
  {
    c := AnyChoice(s, source, now, m);
  }

  lemma {:induction false} Chosen(s: State, u: State, source: Key, now: int, m: Message, c: Choice,
                                  reply: Option<Bytes>, stage: Stage)
    returns (e: Choice)
    requires m.Hello? && var p := PruneState(s, now); Outcomes(p, u, Fullness(p, m), source, now, m, c, reply, stage)
    ensures var p := PruneState(s, now); Outcomes(p, u, Fullness(p, m), source, now, m, e, reply, stage)
    ensures Started(s.limits) && Started(s.peerLimits) ==> Total(PruneState(s, now), source, m, e)
  {
    e := c;
    if Started(s.limits) && Started(s.peerLimits) {
      PrunedStarted(s, now);
      var p := PruneState(s, now);
      e := Completed(p, Fullness(p, m), source, now, m, c);
    }
  }

  lemma {:induction false} HelloAnswers(su: Suite, s: State, full: Full, source: Key, now: int, m: Message, c: Choice)
    requires m.Hello?
    ensures var r := HelloStep(s, full, source, now, m, c).reply;
            ReplyBytes(su, r) == if r.Respond? then Some(r.frame) else None
  {
  }

  lemma {:induction false} HelloSteps(s: State, source: Key, now: int, m: Message, c: Choice)
    requires m.Hello?
    ensures var p := PruneState(s, now);
            && Step(s, Machine.Handle(source, now, m, c)) == HelloStep(p, Fullness(p, m), source, now, m, c)
            && HelloStep(p, Fullness(p, m), source, now, m, c).session == None
            && (Total(p, source, m, c) ==> Feasible(s, Machine.Handle(source, now, m, c)))
  {
  }

  lemma {:induction false} HelloTaken(su: Suite, s: State, u: State, source: Key, now: int, m: Message, c: Choice,
                                      reply: Option<Bytes>, stage: Stage, before: bool, after: bool)
    returns (e: Choice)
    requires m.Hello? && var p := PruneState(s, now); Outcomes(p, u, Fullness(p, m), source, now, m, c, reply, stage)
    requires after ==> before || Collides(stage, PruneState(s, now).pending)
    ensures Taken(su, s, u, Machine.Handle(source, now, m, e), reply, None, before, after)
  {
    e := Chosen(s, u, source, now, m, c, reply, stage);
    var p := PruneState(s, now);
    HelloSteps(s, source, now, m, e);
    HelloAnswers(su, p, Fullness(p, m), source, now, m, e);
  }

  // A callback's call, from what the entry's object tells.
  lemma {:induction false} InstalledTaken(s: State, u: State, ref: nat, hash: Hash, ok: bool, called: bool, held: bool)
    requires (ref in s.open <==> !called) && (ref in s.open ==> s.open[ref] == hash)
    requires held <==> hash in s.pending && s.pending[hash].ref == ref
    requires u == s.(open := s.open - {ref},
                     pending := if called || !held then s.pending
                                else if ok then s.pending[hash := s.pending[hash].(psk := ZERO_KEY, accepted := true)]
                                else s.pending - {hash})
    ensures u == InstalledStep(s, ref, ok)
  {
    PutDrop(s.open, ref, hash);
  }

  // A finish that passed every check.
  lemma {:induction false} Awarded(s: State, source: Key, m: Message)
    requires m.Finish? && m.hash in s.pending
    requires var p := s.pending[m.hash];
             p.source == source && m.known(p.peer) && m.proves(p.hk) && !p.accepted && !p.installing
                 && !Busy(s.pending, m.hash)
    ensures var h, p := m.hash, s.pending[m.hash];
            FinishStep(s, source, m) ==
              Outcome(s.(pending := (s.pending - Competing(s.pending, h))[h := p.(installing := true)],
                         open := s.open[p.ref := h]),
                      Acknowledge(h, p.hk), Some(Session(p.ref, h, p.peer, p.keys, p.psk)), Granted)
  {
  }

  // A packet by type: a finish's body, a hello as read, or anything else, framed or not.
  datatype Kind = AFinish(body: Bytes) | AHello(hello: Message) | Neither(framed: bool)

  ghost predicate Says(cfg: Config, auth: Auth, kind: Kind, m: Message) {
    match kind
    case AFinish(body) => |body| == HASH_SIZE + PROOF_SIZE && m == ReadFinish(cfg.suite, auth, body)
    case AHello(hello) => hello.Hello? && m == hello
    case Neither(framed) => m == if framed then Foreign else Malformed
  }

  // What a packet says does not depend on the choices.
  lemma {:induction false} SameEvent(cfg: Config, d: Delivery, c: Choice)
    ensures EventOf(cfg, d.(choice := c)) == Machine.Handle(d.source, d.now, Interpret(cfg, d), c)
  {
  }

  ghost predicate Asked(b: bool) { b }

  class Server {
    const cfg: Config
    const table: T.Table
    var replay: map<Hash, int>
    var limits: map<Key, Bucket>
    var peerLimits: map<Key, Bucket>
    var global: Bucket

    ghost function View(): State
      reads this, table
    {
      State(table.entries, replay, limits, peerLimits, global, table.next, table.open)
    }

    // The table's invariant, unfolded only where a proof asks for it.
    ghost predicate Intact()
      reads table, table.issued
    {
      forall b: bool {:trigger Asked(b)} :: Asked(b) ==> table.Valid()
    }

    constructor (cfg: Config)
      ensures Intact() && fresh(table) && View() == START && table.issued == {} && !table.clashed && this.cfg == cfg
    {
      this.cfg := cfg;
      replay, limits, peerLimits, global := map[], map[], map[], NO_BUCKET;
      table := new T.Table();
    }

    method Prune(now: int)
      requires Intact()
      modifies this`replay, this`limits, this`peerLimits, table`pending, table`entries, table.issued`fields
      ensures Intact() && View() == PruneState(old(View()), now)
    {
      assert Asked(true);
      table.Expire(now);
      replay := ExpireReplay(replay, now);
      limits := PruneBuckets(limits, now);
      peerLimits := PruneBuckets(peerLimits, now);
    }

    method Expire(now: int)
      requires Intact()
      modifies this, table`pending, table`entries, table.issued`fields
      ensures Intact() && View() == Step(old(View()), Machine.Expire(now)).state
    {
      Prune(now);
    }

    method Close(ghost now: int)
      requires Intact()
      modifies this, table`pending, table`entries, table.issued`fields
      ensures Intact() && View() == Step(old(View()), Machine.Close(now)).state
      ensures forall p :: p in table.issued ==> p.Erased() || p.Displaced()
    {
      assert Asked(true);
      table.EraseAll(table.pending.Keys);
      replay, limits, peerLimits := map[], map[], map[];
    }

    // The closure handed out with the session of p.
    method Installed(p: T.Pending, ok: bool, ghost now: int)
      requires Intact() && p in table.issued && p.handed
      modifies table`pending, table`entries, table`open, p
      ensures Intact() && View() == Step(old(View()), Machine.Installed(now, p.ref, ok)).state
      ensures p.handed && p.called
      ensures !ok && !old(p.called) ==> p.Erased() || p.Displaced()
    {
      assert Asked(true);
      table.Identity(p);
      ghost var s, called, held := View(), p.called, table.Held(p);
      table.Installed(p, ok);
      InstalledTaken(s, View(), p.ref, p.hash, ok, called, held);
      if !table.Held(p) { table.Out(p); }
    }

    // The finish names a pending entry of this source, for an identity still authorized, and proves its key.
    method CheckFinish(source: Key, h: Hash, proof: Bytes, auth: Auth) returns (ok: bool)
      requires Intact()
      ensures ok == (h in table.entries && table.entries[h].source == source
                     && Lookup(auth, table.entries[h].peer) != []
                     && Proof(cfg.suite, table.entries[h].hk, "client-finished", h) == proof)
    {
      assert Asked(true);
      if h !in table.pending {
        return false;
      }
      var p := table.pending[h].fields;
      var pub := LookupKey(auth, p.peer);
      return p.source == source && pub != [] && Proof(cfg.suite, p.hk, "client-finished", h) == proof;
    }

    // A finish that passed every check: discard the competitors and hand out the session.
    method GrantNow(source: Key, h: Hash, ghost m: Message) returns (session: Session, handed: T.Pending)
      requires Intact() && m.Finish? && m.hash == h && h in table.entries
      requires var p := table.entries[h]; p.source == source && m.known(p.peer) && m.proves(p.hk)
      requires !table.entries[h].accepted && !table.entries[h].installing && !Busy(table.entries, h)
      modifies table`pending, table`entries, table`open, table.issued
      ensures Intact() && View() == FinishStep(old(View()), source, m).state
      ensures FinishStep(old(View()), source, m).session == Some(session)
      ensures FinishStep(old(View()), source, m).reply == Acknowledge(h, old(table.entries)[h].hk)
      ensures handed in table.issued && handed.handed && handed.ref == session.ref
    {
      assert Asked(true);
      Awarded(View(), source, m);
      handed := table.pending[h];
      var fields := handed.fields;
      session := Session(fields.ref, h, fields.peer, fields.keys, fields.psk);
      table.Grant(h);
    }

    // A finish whose proof holds: acknowledge, stay silent, or hand out the session.
    method Award(source: Key, h: Hash, ghost m: Message)
      returns (reply: Option<Bytes>, session: Option<Session>, handed: T.Pending?)
      requires Intact() && m.Finish? && m.hash == h && h in table.entries
      requires var p := table.entries[h]; p.source == source && m.known(p.peer) && m.proves(p.hk)
      modifies table`pending, table`entries, table`open, table.issued
      ensures Intact()
      ensures var o := FinishStep(old(View()), source, m);
              View() == o.state && reply == ReplyBytes(cfg.suite, o.reply) && session == o.session
      ensures session.Some? ==>
                handed != null && handed in table.issued && handed.handed && handed.ref == session.value.ref
    {
      assert Asked(true);
      var fields := table.pending[h].fields;
      reply, session, handed := Some(Ack(cfg.suite, fields.hk, h)), None, null;
      if fields.accepted {
        return;
      }
      var busy := table.Scan(h);
      if fields.installing || busy {
        reply := None;
        return;
      }
      var granted;
      granted, handed := GrantNow(source, h, m);
      session := Some(granted);
    }

    method HandleFinish(source: Key, b: Bytes, auth: Auth)
      returns (reply: Option<Bytes>, session: Option<Session>, handed: T.Pending?)
      requires Intact() && |b| == HASH_SIZE + PROOF_SIZE
      modifies table`pending, table`entries, table`open, table.issued
      ensures Intact()
      ensures var o := FinishStep(old(View()), source, ReadFinish(cfg.suite, auth, b));
              View() == o.state && reply == ReplyBytes(cfg.suite, o.reply) && session == o.session
      ensures session.Some? ==>
                handed != null && handed in table.issued && handed.handed && handed.ref == session.value.ref
    {
      var h: Hash := b[..HASH_SIZE];
      var ok := CheckFinish(source, h, b[HASH_SIZE..], auth);
      if !ok {
        return None, None, null;
      }
      reply, session, handed := Award(source, h, ReadFinish(cfg.suite, auth, b));
    }

    /* ClientHello */

    method Enter(hash: Hash, fields: Entry)
      requires Intact() && fields.ref == table.next && !fields.installing
      modifies table`pending, table`entries, table`next, table`issued, table`byRef, table`clashed,
               table.issued`successor
      ensures Intact() && old(table.issued) <= table.issued
      ensures forall p :: p in table.issued && p !in old(table.issued) ==> fresh(p)
      ensures table.clashed ==> old(table.clashed) || hash in old(table.entries)
      ensures table.entries == old(table.entries)[hash := fields] && table.next == old(table.next) + 1
    {
      assert Asked(true);
      var p := new T.Pending(hash, fields);
      table.Insert(p);
    }

    // Record an accepted hello.
    method Record(source: Key, now: int, m: Message, id: Key)
      requires Intact() && m.Hello? && m.offer.Some?
      modifies this`replay, table`pending, table`entries, table`next, table`issued, table`byRef, table`clashed,
               table.issued`successor
      ensures Intact() && old(table.issued) <= table.issued
      ensures forall p :: p in table.issued && p !in old(table.issued) ==> fresh(p)
      ensures table.clashed ==> old(table.clashed) || m.offer.value.hash in old(table.entries)
      ensures table.entries == old(table.entries)[m.offer.value.hash := NewEntry(old(View()), source, now, m, id)]
      ensures table.next == old(table.next) + 1 && replay == old(replay)[m.replay := now + REPLAY_LIFE]
    {
      var o := m.offer.value;
      var fields := Entry(table.next, id, m.keys, o.psk, o.hk, source, now + PENDING_LIFE, false, false, m.digest,
                          o.response);
      Enter(o.hash, fields);
      replay := replay[m.replay := now + REPLAY_LIFE];
    }

    // An authenticated hello within its identity's rate.
    method Conclude(source: Key, now: int, m: Message, id: Key, ghost quota: bool) returns (stage: Stage)
      requires Intact() && m.Hello? && quota == (|Owned(table.entries, id)| >= MAX_OWNED)
      modifies this`replay, table`pending, table`entries, table`next, table`issued, table`byRef, table`clashed,
               table.issued`successor
      ensures Intact() && old(table.issued) <= table.issued
      ensures forall p :: p in table.issued && p !in old(table.issued) ==> fresh(p)
      ensures table.clashed ==> old(table.clashed) || Collides(stage, old(table.entries))
      ensures Concluded(old(View()), View(), quota, source, now, m, id, stage)
    {
      assert Asked(true);
      var owned := table.CountOwned(id);
      if owned >= MAX_OWNED {
        return PeerQuota(id);
      }
      if !m.kemValid {
        return BadKemKey(id);
      }
      if m.offer.None? {
        return Failed(id);
      }
      stage := Accepted(id, table.next, m.offer.value.hash);
      Record(source, now, m, id);
    }

    // From the signature check on: the identity is known, its packet is no replay and there is room.
    method Authenticate(source: Key, now: int, m: Message, id: Key, ghost full: Full)
      returns (stage: Stage, ghost victim: Key)
      requires Intact() && m.Hello?
      requires full.peer == (|peerLimits| >= MAX_TABLE) && full.quota == (|Owned(table.entries, id)| >= MAX_OWNED)
      modifies this`replay, this`peerLimits, table`pending, table`entries, table`next, table`issued, table`byRef,
               table`clashed, table.issued`successor
      ensures Intact() && old(table.issued) <= table.issued
      ensures forall p :: p in table.issued && p !in old(table.issued) ==> fresh(p)
      ensures table.clashed ==> old(table.clashed) || Collides(stage, old(table.entries))
      ensures Authenticated(old(View()), View(), full, source, now, m, id, stage, victim)
    {
      victim := id;
      if !m.signed {
        return BadSignature, victim;
      }
      var ok;
      peerLimits, ok, victim := ChargeTable(peerLimits, id, now);
      if !ok {
        return PeerLimited(id), victim;
      }
      stage := Conclude(source, now, m, id, full.quota);
    }

    // Up to the shared budget: fixed fields, stamp, the sender's rate, the identity, the shared rate.
    method Admit(source: Key, now: int, m: Message, ghost full: bool) returns (stage: Stage, ghost victim: Key)
      requires m.Hello? && full == (|limits| >= MAX_TABLE)
      modifies this`limits, this`global
      ensures Admitted(old(View()), View(), full, source, now, m, stage, victim) && (stage.Idle? ==> m.peer.Some?)
    {
      victim := source;
      if !m.sound {
        return BadFields, victim;
      }
      if !Timely(m.stamp, now) {
        return BadStamp, victim;
      }
      var ok;
      limits, ok, victim := ChargeTable(limits, source, now);
      if !ok {
        return SenderLimited, victim;
      }
      if m.peer.None? {
        return Unresolved, victim;
      }
      var charged := Allow(global, now, Shared);
      global := charged.0;
      stage := if charged.1 then Idle else GlobalLimited;
    }

    // A hello whose replay key is known: repeat the pending response to the same packet, or stay silent.
    method Repeat(source: Key, m: Message) returns (stage: Stage, reply: Option<Bytes>, ghost cached: Hash)
      requires Intact() && m.Hello?
      ensures stage == if IsCached(View(), source, m, cached) then Retransmitted else Replayed
      ensures (exists h :: IsCached(View(), source, m, h)) ==> IsCached(View(), source, m, cached)
      ensures reply == if stage.Retransmitted? then Some(table.entries[cached].response) else None
    {
      assert Asked(true);
      var found := table.FindCached(source, m.digest);
      if found.None? {
        cached := m.digest;
        return Replayed, None, cached;
      }
      cached := found.value;
      return Retransmitted, Some(table.pending[found.value].fields.response), cached;
    }

    // Not a replay and room in both tables: authenticate.
    method Accept(source: Key, now: int, m: Message, ghost full: Full)
      returns (reply: Option<Bytes>, stage: Stage, ghost peer: Key, ghost cached: Hash)
      requires Intact() && m.Hello? && m.peer.Some? && Measured(replay, table.entries, peerLimits, full, m)
      requires m.replay !in replay && !full.replay && !full.pending
      modifies this`replay, this`peerLimits
      modifies table`pending, table`entries, table`next, table`issued, table`byRef, table`clashed,
               table.issued`successor
      ensures Intact() && old(table.issued) <= table.issued
      ensures forall p :: p in table.issued && p !in old(table.issued) ==> fresh(p)
      ensures table.clashed ==> old(table.clashed) || Collides(stage, old(table.entries))
      ensures Rest(old(View()), View(), full, source, now, m, stage, reply, peer, cached)
    {
      cached := m.digest;
      stage, peer := Authenticate(source, now, m, m.peer.value, full);
      reply := if stage.Accepted? then Some(m.offer.value.response) else None;
    }

    // Past the shared budget: the replay table, the capacities, then authentication.
    method Continue(source: Key, now: int, m: Message, ghost full: Full)
      returns (reply: Option<Bytes>, stage: Stage, ghost peer: Key, ghost cached: Hash)
      requires Intact() && m.Hello? && m.peer.Some? && Measured(replay, table.entries, peerLimits, full, m)
      modifies this`replay, this`peerLimits
      modifies table`pending, table`entries, table`next, table`issued, table`byRef, table`clashed,
               table.issued`successor
      ensures Intact() && old(table.issued) <= table.issued
      ensures forall p :: p in table.issued && p !in old(table.issued) ==> fresh(p)
      ensures table.clashed ==> old(table.clashed) || Collides(stage, old(table.entries))
      ensures Rest(old(View()), View(), full, source, now, m, stage, reply, peer, cached)
    {
      assert Asked(true);
      SameSize(table.pending, table.entries);
      peer, cached := m.peer.value, m.digest;
      if m.replay in replay {
        stage, reply, cached := Repeat(source, m);
      } else if |replay| >= MAX_REPLAY {
        reply, stage := None, ReplayFull;
      } else if |table.pending| >= MAX_PENDING {
        reply, stage := None, PendingFull;
      } else {
        reply, stage, peer, cached := Accept(source, now, m, full);
      }
    }

    // The rest of a call after the checks up to the shared budget ended at `entry`.
    method Proceed(source: Key, now: int, m: Message, entry: Stage, ghost full: Full, ghost s: State, ghost sender: Key)
      returns (reply: Option<Bytes>, ghost choice: Choice, ghost stage: Stage)
      requires Intact() && m.Hello? && (entry.Idle? ==> m.peer.Some?)
      requires m.peer.Some? ==> Measured(replay, table.entries, peerLimits, full, m)
      requires Admitted(s, View(), full.sender, source, now, m, entry, sender)
      modifies this`replay, this`peerLimits, table`pending, table`entries, table`next, table`issued, table`byRef,
               table`clashed, table.issued`successor
      ensures Intact() && old(table.issued) <= table.issued
      ensures forall p :: p in table.issued && p !in old(table.issued) ==> fresh(p)
      ensures table.clashed ==> old(table.clashed) || Collides(stage, old(table.entries))
      ensures Outcomes(s, View(), full, source, now, m, choice, reply, stage)
    {
      if !entry.Idle? {
        Refused(s, View(), full, source, now, m, entry, sender);
        return None, Choice(sender, sender, m.digest), entry;
      }
      ghost var peer, cached;
      reply, stage, peer, cached := Continue(source, now, m, full);
      choice := Choice(sender, peer, cached);
      Passed(s, old(View()), View(), full, source, now, m, stage, reply, choice);
    }

    method HandleHello(source: Key, now: int, m: Message, ghost full: Full)
      returns (reply: Option<Bytes>, ghost choice: Choice, ghost stage: Stage)
      requires Intact() && m.Hello? && full.sender == (|limits| >= MAX_TABLE)
      requires m.peer.Some? ==> Measured(replay, table.entries, peerLimits, full, m)
      modifies this`replay, this`limits, this`peerLimits, this`global
      modifies table`pending, table`entries, table`next, table`issued, table`byRef, table`clashed,
               table.issued`successor
      ensures Intact() && old(table.issued) <= table.issued
      ensures forall p :: p in table.issued && p !in old(table.issued) ==> fresh(p)
      ensures table.clashed ==> old(table.clashed) || Collides(stage, old(table.entries))
      ensures Outcomes(old(View()), View(), full, source, now, m, choice, reply, stage)
    {
      var entry;
      ghost var sender;
      entry, sender := Admit(source, now, m, full.sender);
      reply, choice, stage := Proceed(source, now, m, entry, full, old(View()), sender);
    }

    /* Handle */

    // Read a hello's fields, resolve its tag and verify its signature.
    method Decode(d: Delivery, b: Bytes) returns (m: Message)
      requires |b| == HELLO_SIZE + SIGNATURE_SIZE
      ensures m == ReadHello(cfg, d, b)
    {
      var su, hello := cfg.suite, b[..HELLO_SIZE];
      var who := ResolveTag(su, d.auth, Tag(b), HelloNonce(b));
      if who.Some? && (who.value.1 == [] || ID(su, who.value.1) != who.value.0) {
        who := None;
      }
      var id, signed, peer := ZERO_KEY, false, None;
      if who.Some? {
        id, peer := who.value.0, Some(who.value.0);
        signed := Verify(su, who.value.1, CLIENT_CONTEXT, Frame(CLIENT_HELLO, hello), b[HELLO_SIZE..]);
      }
      var offer := if d.draw.ok then Some(MakeOffer(cfg, hello, d.draw)) else None;
      m := Hello(SoundFields(cfg, d.source, b), HelloStamp(b), peer, ReplayKey(su, id, HelloNonce(b)),
                 su.sha384(d.packet),
                 signed, HelloKeys(b), su.kemValid(HelloKem(hello)), offer);
    }

    // A finish after pruning.
    method FinishCall(source: Key, now: int, auth: Auth, b: Bytes, ghost m: Message)
      returns (reply: Option<Bytes>, session: Option<Session>, handed: T.Pending?, ghost choice: Choice)
      requires Intact() && |b| == HASH_SIZE + PROOF_SIZE && m == ReadFinish(cfg.suite, auth, b)
      modifies this`replay, this`limits, this`peerLimits, table`pending, table`entries, table`open, table.issued
      ensures Intact() && Taken(cfg.suite, old(View()), View(), Machine.Handle(source, now, m, choice), reply, session,
                                old(table.clashed), table.clashed)
      ensures session.Some? ==>
                handed != null && handed in table.issued && handed.handed && handed.ref == session.value.ref
    {
      Prune(now);
      reply, session, handed := HandleFinish(source, b, auth);
      choice := Finished(cfg.suite, old(View()), View(), source, now, m, reply, session, table.clashed);
    }

    // A hello in the pruned state.
    method Greet(source: Key, now: int, m: Message, ghost s: State) returns (reply: Option<Bytes>, ghost choice: Choice)
      requires Intact() && m.Hello? && View() == PruneState(s, now)
      modifies this`replay, this`limits, this`peerLimits, this`global
      modifies table`pending, table`entries, table`next, table`issued, table`byRef, table`clashed,
               table.issued`successor
      ensures Intact() && old(table.issued) <= table.issued
      ensures forall p :: p in table.issued && p !in old(table.issued) ==> fresh(p)
      ensures Taken(cfg.suite, s, View(), Machine.Handle(source, now, m, choice), reply, None, old(table.clashed),
                    table.clashed)
    {
      ghost var stage;
      reply, choice, stage := HandleHello(source, now, m, Fullness(View(), m));
      choice := HelloTaken(cfg.suite, s, View(), source, now, m, choice, reply, stage, old(table.clashed),
                           table.clashed);
    }

    method HelloCall(source: Key, now: int, m: Message) returns (reply: Option<Bytes>, ghost choice: Choice)
      requires Intact() && m.Hello?
      modifies this`replay, this`limits, this`peerLimits, this`global
      modifies table`pending, table`entries, table`next, table`issued, table`byRef, table`clashed, table.issued
      ensures Intact() && old(table.issued) <= table.issued
      ensures forall p :: p in table.issued && p !in old(table.issued) ==> fresh(p)
      ensures Taken(cfg.suite, old(View()), View(), Machine.Handle(source, now, m, choice), reply, None,
                    old(table.clashed), table.clashed)
    {
      Prune(now);
      reply, choice := Greet(source, now, m, old(View()));
    }

    method OtherCall(source: Key, now: int, ghost m: Message, framed: bool) returns (ghost choice: Choice)
      requires Intact() && m == if framed then Foreign else Malformed
      modifies this`replay, this`limits, this`peerLimits, table`pending, table`entries, table.issued
      ensures Intact() && Taken(cfg.suite, old(View()), View(), Machine.Handle(source, now, m, choice), None, None,
                                old(table.clashed), table.clashed)
    {
      choice := AnyChoice(View(), source, now, m);
      if framed {
        Prune(now);
      }
    }

    // The branch for the packet's type; m is what the packet says.
    method Dispatch(source: Key, now: int, auth: Auth, kind: Kind, ghost m: Message)
      returns (reply: Option<Bytes>, session: Option<Session>, handed: T.Pending?, ghost choice: Choice)
      requires Intact() && Says(cfg, auth, kind, m)
      modifies this, table, table.issued
      ensures Intact() && old(table.issued) <= table.issued
      ensures forall p :: p in table.issued && p !in old(table.issued) ==> fresh(p)
      ensures Taken(cfg.suite, old(View()), View(), Machine.Handle(source, now, m, choice), reply, session,
                    old(table.clashed), table.clashed)
      ensures session.Some? ==>
                handed != null && handed in table.issued && handed.handed && handed.ref == session.value.ref
    {
      reply, session, handed := None, None, null;
      match kind {
        case AFinish(body) => reply, session, handed, choice := FinishCall(source, now, auth, body, m);
        case AHello(hello) => reply, choice := HelloCall(source, now, hello);
        case Neither(framed) => choice := OtherCall(source, now, m, framed);
      }
    }

    // The frame's type, with a hello already read.
    method Classify(d: Delivery) returns (kind: Kind)
      ensures Says(cfg, d.auth, kind, Interpret(cfg, d))
    {
      var parsed := Parse(d.packet);
      if parsed.None? {
        return Neither(false);
      }
      if parsed.value.0 == CLIENT_FINISH {
        return AFinish(parsed.value.1);
      }
      if parsed.value.0 != CLIENT_HELLO {
        return Neither(true);
      }
      var hello := Decode(d, parsed.value.1);
      return AHello(hello);
    }

    // A delivery's own `choice` plays no part: the call reports the choices it made.
    method Handle(d: Delivery)
      returns (reply: Option<Bytes>, session: Option<Session>, handed: T.Pending?, ghost choice: Choice)
      requires Intact()
      modifies this, table, table.issued
      ensures Intact() && old(table.issued) <= table.issued
      ensures forall p :: p in table.issued && p !in old(table.issued) ==> fresh(p)
      ensures Taken(cfg.suite, old(View()), View(), EventOf(cfg, d.(choice := choice)), reply, session,
                    old(table.clashed), table.clashed)
      ensures session.Some? ==>
                handed != null && handed in table.issued && handed.handed && handed.ref == session.value.ref
    {
      var kind := Classify(d);
      reply, session, handed, choice := Dispatch(d.source, d.now, d.auth, kind, Interpret(cfg, d));
      SameEvent(cfg, d, choice);
    }
  }
}
