/** A choice a call never reaches is open: the record of a call can always be completed to a feasible one. */
module Choices {
  import opened Bytes
  import opened Bucket
  import opened Machine
  import opened Effects

  lemma {:induction false} OldestExists<K>(table: map<K, Bucket>) returns (victim: K)
    requires table.Keys != {}
    ensures Oldest(table, victim)
    decreases table.Keys
  {
    var k :| k in table;
    var rest := table - {k};
    assert rest.Keys == table.Keys - {k};
    if rest.Keys == {} {
      assert table.Keys == {k};
      assert forall j :: j in table ==> j in table.Keys;
      return k;
    }
    var v := OldestExists(rest);
    victim := if table[k].start < rest[v].start then k else v;
    forall j | j in table ensures table[victim].start <= table[j].start {
      assert j == k || j in rest;
    }
  }

  // Two choices with the same outcome.
  ghost predicate Indifferent(s: State, full: Full, source: Key, now: int, m: Message, c: Choice, d: Choice)
    requires m.Hello?
  {
    HelloStep(s, full, source, now, m, c) == HelloStep(s, full, source, now, m, d)
  }

  lemma {:induction false} SenderVerdict(s: State, full: Full, source: Key, now: int, m: Message, c: Choice, k: Key)
    requires m.Hello? && !SenderCharged(Verdict(s, full, source, now, m, c))
    ensures Verdict(s, full, source, now, m, c) == Verdict(s, full, source, now, m, c.(sender := k))
  {
    VerdictIs(s, full, source, now, m, c);
    VerdictIs(s, full, source, now, m, c.(sender := k));
  }

  lemma {:induction false} SenderState(s: State, full: Full, source: Key, now: int, m: Message, c: Choice, k: Key,
                                       stage: Stage)
    requires m.Hello? && !SenderCharged(stage)
    ensures HelloState(s, full, source, now, m, c, stage) == HelloState(s, full, source, now, m, c.(sender := k), stage)
  {
  }

  // The sender choice is used only to charge a new sender of a full table.
  lemma {:induction false} FreeSender(s: State, full: Full, source: Key, now: int, m: Message, c: Choice, k: Key)
    requires m.Hello? && !SenderCharged(Verdict(s, full, source, now, m, c))
    ensures Indifferent(s, full, source, now, m, c, c.(sender := k))
  {
    SenderVerdict(s, full, source, now, m, c, k);
    SenderState(s, full, source, now, m, c, k, Verdict(s, full, source, now, m, c));
  }

  lemma {:induction false} PeerVerdict(s: State, full: Full, source: Key, now: int, m: Message, c: Choice, k: Key)
    requires m.Hello?
    requires var stage := Verdict(s, full, source, now, m, c);
             PeerTried(stage) ==> stage.id in s.peerLimits || !full.peer
    ensures Verdict(s, full, source, now, m, c) == Verdict(s, full, source, now, m, c.(peer := k))
  {
    VerdictIs(s, full, source, now, m, c);
    VerdictIs(s, full, source, now, m, c.(peer := k));
  }

  lemma {:induction false} PeerState(s: State, full: Full, source: Key, now: int, m: Message, c: Choice, k: Key,
                                     stage: Stage)
    requires m.Hello? && (stage.Accepted? ==> m.offer.Some?)
    requires PeerTried(stage) ==> stage.id in s.peerLimits || !full.peer
    ensures HelloState(s, full, source, now, m, c, stage) == HelloState(s, full, source, now, m, c.(peer := k), stage)
  {
  }

  // The identity choice is used only to charge a new identity of a full table.
  lemma {:induction false} FreePeer(s: State, full: Full, source: Key, now: int, m: Message, c: Choice, k: Key)
    requires m.Hello?
    requires var stage := Verdict(s, full, source, now, m, c);
             PeerTried(stage) ==> stage.id in s.peerLimits || !full.peer
    ensures Indifferent(s, full, source, now, m, c, c.(peer := k))
  {
    PeerVerdict(s, full, source, now, m, c, k);
    PeerState(s, full, source, now, m, c, k, Verdict(s, full, source, now, m, c));
  }

  lemma {:induction false} CachedVerdict(s: State, full: Full, source: Key, now: int, m: Message, c: Choice, h: Hash)
    requires m.Hello?
    requires var stage := Verdict(s, full, source, now, m, c); !stage.Replayed? && !stage.Retransmitted?
    ensures Verdict(s, full, source, now, m, c) == Verdict(s, full, source, now, m, c.(cached := h))
  {
    VerdictIs(s, full, source, now, m, c);
    VerdictIs(s, full, source, now, m, c.(cached := h));
  }

  lemma {:induction false} CachedState(s: State, full: Full, source: Key, now: int, m: Message, c: Choice, h: Hash,
                                       stage: Stage)
    requires m.Hello? && (stage.Accepted? ==> m.offer.Some?)
    ensures HelloState(s, full, source, now, m, c, stage) == HelloState(s, full, source, now, m, c.(cached := h), stage)
  {
  }

  // The cached choice is used only to answer a known replay key.
  lemma {:induction false} FreeCached(s: State, full: Full, source: Key, now: int, m: Message, c: Choice, h: Hash)
    requires m.Hello?
    requires var stage := Verdict(s, full, source, now, m, c); !stage.Replayed? && !stage.Retransmitted?
    ensures Indifferent(s, full, source, now, m, c, c.(cached := h))
  {
    CachedVerdict(s, full, source, now, m, c, h);
    CachedState(s, full, source, now, m, c, h, Verdict(s, full, source, now, m, c));
  }

  lemma {:induction false} SomeOldest(table: map<Key, Bucket>, other: Key) returns (k: Key)
    ensures |table| >= MAX_TABLE ==> Oldest(table, k)
  {
    if |table| >= MAX_TABLE {
      assert table.Keys != {} by { assert |table.Keys| == |table|; }
      k := OldestExists(table);
    } else {
      k := other;
    }
  }

  // The choices a hello's call did make are ones iteration can make.
  ghost predicate Made(s: State, full: Full, source: Key, now: int, m: Message, c: Choice)
    requires m.Hello?
  {
    var stage := Verdict(s, full, source, now, m, c);
    && (SenderCharged(stage) && source !in s.limits && full.sender ==> Oldest(s.limits, c.sender))
    && (PeerTried(stage) && stage.id !in s.peerLimits && full.peer ==> Oldest(s.peerLimits, c.peer))
    && (stage.Replayed? || stage.Retransmitted? ==>
          (exists h :: IsCached(s, source, m, h)) ==> IsCached(s, source, m, c.cached))
  }

  ghost predicate Total(s: State, source: Key, m: Message, c: Choice) {
    && (source !in s.limits && |s.limits| >= MAX_TABLE ==> Oldest(s.limits, c.sender))
    && (|s.peerLimits| >= MAX_TABLE ==> Oldest(s.peerLimits, c.peer))
    && (m.Hello? && (exists h :: IsCached(s, source, m, h)) ==> IsCached(s, source, m, c.cached))
  }

  lemma {:induction false} WithSender(s: State, full: Full, source: Key, now: int, m: Message, c: Choice)
    returns (d: Choice)
    requires m.Hello? && full == Fullness(s, m) && Made(s, full, source, now, m, c)
    ensures Indifferent(s, full, source, now, m, c, d) && d.peer == c.peer && d.cached == c.cached
    ensures source !in s.limits && full.sender ==> Oldest(s.limits, d.sender)
  {
    d := c;
    if source !in s.limits && full.sender && !SenderCharged(Verdict(s, full, source, now, m, c)) {
      var k := SomeOldest(s.limits, source);
      FreeSender(s, full, source, now, m, c, k);
      d := c.(sender := k);
    }
  }

  lemma {:induction false} WithPeer(s: State, full: Full, source: Key, now: int, m: Message, c: Choice)
    returns (d: Choice)
    requires m.Hello? && full == Fullness(s, m)
    requires var stage := Verdict(s, full, source, now, m, c);
             PeerTried(stage) && stage.id !in s.peerLimits && full.peer ==> Oldest(s.peerLimits, c.peer)
    ensures Indifferent(s, full, source, now, m, c, d) && d.sender == c.sender && d.cached == c.cached
    ensures full.peer ==> Oldest(s.peerLimits, d.peer)
  {
    d := c;
    var stage := Verdict(s, full, source, now, m, c);
    if full.peer && (PeerTried(stage) ==> stage.id in s.peerLimits) {
      var k := SomeOldest(s.peerLimits, source);
      FreePeer(s, full, source, now, m, c, k);
      d := c.(peer := k);
    }
  }

  lemma {:induction false} WithCached(s: State, full: Full, source: Key, now: int, m: Message, c: Choice)
    returns (d: Choice)
    requires m.Hello?
    requires var stage := Verdict(s, full, source, now, m, c);
             stage.Replayed? || stage.Retransmitted? ==>
               (exists h :: IsCached(s, source, m, h)) ==> IsCached(s, source, m, c.cached)
    ensures Indifferent(s, full, source, now, m, c, d) && d.sender == c.sender && d.peer == c.peer
    ensures (exists h :: IsCached(s, source, m, h)) ==> IsCached(s, source, m, d.cached)
  {
    d := c;
    var stage := Verdict(s, full, source, now, m, c);
    if !stage.Replayed? && !stage.Retransmitted? {
      if h :| IsCached(s, source, m, h) {
        FreeCached(s, full, source, now, m, c, h);
        d := c.(cached := h);
      }
    }
  }

  lemma {:induction false} Completed(s: State, full: Full, source: Key, now: int, m: Message, c: Choice)
    returns (d: Choice)
    requires m.Hello? && full == Fullness(s, m) && Made(s, full, source, now, m, c)
    ensures Indifferent(s, full, source, now, m, c, d) && Total(s, source, m, d)
  {
    var c1 := WithSender(s, full, source, now, m, c);
    var c2 := WithPeer(s, full, source, now, m, c1);
    d := WithCached(s, full, source, now, m, c2);
  }
}
