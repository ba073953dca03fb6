/** An honest client and an authorized server complete the handshake, at the level of bytes. */
module Completeness {
  import opened Bytes
  import opened Wire
  import opened Crypto
  import opened Bucket
  import opened Machine
  import opened Handshake
  import C = Client

  // Client and server hold each other's keys, and both sign correctly.
  ghost predicate Paired(cfg: Config, x: C.Setup) {
    && cfg.public == x.serverPublic == cfg.suite.signer(cfg.secret) && cfg.keys == x.remote
    && SignatureCorrect(cfg.suite, cfg.secret) && SignatureCorrect(cfg.suite, x.secret)
    && cfg.suite.kemValid(cfg.suite.kemPublic(x.dk)) && x.local.disco != ZERO_KEY
    && -0x8000_0000_0000_0000 <= Unix(x.now) < 0x8000_0000_0000_0000
  }

  // The client's identity and key are in the authorization set, whose tags do not collide.
  ghost predicate Authorized(cfg: Config, x: C.Setup, auth: Auth) {
    var su := cfg.suite;
    Lookup(auth, C.ClientId(su, x)) == su.signer(x.secret) && TagsDistinct(su, Ids(auth), x.nonce)
  }

  lemma {:induction false} ResolveFinds(su: Suite, auth: Auth, id: Key, nonce: Key)
    requires Lookup(auth, id) != [] && TagsDistinct(su, Ids(auth), nonce)
    ensures id in Ids(auth)
    ensures Resolve(su, auth, PeerTag(su, id, nonce), nonce) == Some((id, Lookup(auth, id)))
  {
    assert auth[0] in auth;
    if auth[0].0 != id {
      var rest := auth[1..];
      assert Ids(rest) <= Ids(auth);
      ResolveFinds(su, rest, id, nonce);
      assert auth[0].0 in Ids(auth);
    }
  }

  lemma {:induction false} StampReads(now: int)
    requires -0x8000_0000_0000_0000 <= Unix(now) < 0x8000_0000_0000_0000
    ensures AsInt64(Unsigned(C.Stamp(now))) == Unix(now)
  {
    Pow256Values();
    UnsignedBigEndian(Unix(now) % 0x1_0000_0000_0000_0000, 8);
  }

  // The server reads the client's hello as a sound, signed hello of that client.
  lemma {:induction false} HelloReads(cfg: Config, x: C.Setup, d: Delivery)
    requires Paired(cfg, x) && Authorized(cfg, x, d.auth)
    requires d.packet == C.HelloPacket(cfg.suite, x) && d.source == x.local.wg
    ensures var m, id := Interpret(cfg, d), C.ClientId(cfg.suite, x);
            && m.Hello? && m.sound && m.stamp == Unix(x.now) && m.peer == Some(id) && m.signed && m.kemValid
            && m.keys == x.local && m.replay == ReplayKey(cfg.suite, id, x.nonce)
            && m.digest == cfg.suite.sha384(d.packet)
            && m.offer == if d.draw.ok then Some(MakeOffer(cfg, C.HelloOf(cfg.suite, x), d.draw)) else None
  {
    var su := cfg.suite;
    var hello := C.HelloOf(su, x);
    var sig := su.sign(x.secret, Ascii(CLIENT_CONTEXT), Frame(CLIENT_HELLO, hello));
    var b := hello + sig;
    ParseOfFrame(CLIENT_HELLO, b);
    HelloFields(PeerTag(su, C.ClientId(su, x), x.nonce), x.local, x.nonce, ID(su, x.serverPublic), C.Stamp(x.now),
                su.kemPublic(x.dk), sig);
    HelloFields(PeerTag(su, C.ClientId(su, x), x.nonce), x.local, x.nonce, ID(su, x.serverPublic), C.Stamp(x.now),
                su.kemPublic(x.dk), []);
    assert hello + [] == hello;
    assert b[..HELLO_SIZE] == hello && b[HELLO_SIZE..] == sig;
    StampReads(x.now);
    ResolveFinds(su, d.auth, C.ClientId(su, x), x.nonce);
  }

  // The client completes on the server's offer and derives the same keys.
  lemma {:induction false} OfferCompletes(cfg: Config, x: C.Setup, draw: Draw)
    requires Paired(cfg, x) && KemInverts(cfg.suite, x.dk, draw.coins)
    ensures var su := cfg.suite;
            var offer := MakeOffer(cfg, C.HelloOf(su, x), draw);
            var c := C.NewClient(su, x);
            && c.Some?
            && C.Complete(su, c.value.0, offer.response)
               == (c.value.0.(live := false, ack := Some(Ack(su, offer.hk, offer.hash))),
                   Some((offer.psk, Crypto.Finish(su, offer.hk, offer.hash))))
  {
    var su := cfg.suite;
    var hello := C.HelloOf(su, x);
    var c := C.NewClient(su, x).value.0;
    var (ss, ct) := Encapsulated(cfg, hello, draw);
    var offer := MakeOffer(cfg, hello, draw);
    var tb := OfferBytes(cfg, hello, draw);
    var sig := su.sign(cfg.secret, Ascii(SERVER_CONTEXT), tb);
    var proof := Proof(su, offer.hk, "server-finished", offer.hash);
    var b := ServerBody(cfg.Id(), cfg.keys, draw.nonce, ct, sig, proof);
    ServerFields(cfg.Id(), cfg.keys, draw.nonce, ct, sig, proof);
    ParseOfFrame(SERVER_HELLO, b);
    HelloFields(PeerTag(su, C.ClientId(su, x), x.nonce), x.local, x.nonce, ID(su, x.serverPublic), C.Stamp(x.now),
                su.kemPublic(x.dk), []);
    assert hello + [] == hello;
    assert C.TranscriptFor(c, b) == tb;
    assert C.SecretFor(su, c, b) == ss;
  }

  // The server reads the client's finish as one that proves the confirmation key.
  lemma {:induction false} FinishReads(cfg: Config, d: Delivery, hk: Key, hash: Hash)
    requires d.packet == Crypto.Finish(cfg.suite, hk, hash)
    ensures var m := Interpret(cfg, d);
            && m.Finish? && m.hash == hash && m.proves(hk)
            && (forall id: Key :: m.known(id) <==> Lookup(d.auth, id) != [])
  {
    var proof := Proof(cfg.suite, hk, "client-finished", hash);
    ParseOfFrame(CLIENT_FINISH, hash + proof);
    assert (hash + proof)[..HASH_SIZE] == hash && (hash + proof)[HASH_SIZE..] == proof;
  }

  /* The machine's part */

  // A hello finds tokens and room everywhere, has not been seen, and no installation of its source is outstanding.
  ghost predicate Room(p: State, e: Event)
    requires e.Handle? && e.msg.Hello? && e.msg.peer.Some?
  {
    var full := Fullness(p, e.msg);
    && SenderTable(p, full, e.source, e.now, e.choice).1 && Allow(p.global, e.now, Shared).1
    && PeerTable(p, full, e.msg.peer.value, e.now, e.choice).1
    && !full.replay && !full.pending && !full.quota && e.msg.replay !in p.replay
  }

  ghost predicate Unclaimed(s: State, m: Message, source: Key)
    requires m.Hello?
  {
    forall h :: h in s.pending ==>
      && (s.pending[h].source == source ==> !s.pending[h].installing || s.pending[h].accepted)
      && s.pending[h].digest != m.digest
  }

  lemma {:induction false} HelloAccepted(p: State, e: Event)
    requires e.Handle? && e.msg.Hello? && e.msg.peer.Some? && e.msg.offer.Some?
    requires e.msg.sound && e.msg.signed && e.msg.kemValid && Timely(e.msg.stamp, e.now) && Room(p, e)
    ensures var o, offer := HelloStep(p, Fullness(p, e.msg), e.source, e.now, e.msg, e.choice), e.msg.offer.value;
            && o.stage == Accepted(e.msg.peer.value, p.next, offer.hash) && o.reply == Respond(offer.response)
            && o.state.pending == p.pending[offer.hash := NewEntry(p, e.source, e.now, e.msg, e.msg.peer.value)]
            && e.msg.replay in o.state.replay && o.state.replay[e.msg.replay] == e.now + REPLAY_LIFE
  {
  }

  lemma {:induction false} FinishGranted(p: State, e: Event, h: Hash)
    requires e.Handle? && e.msg.Finish? && e.msg.hash == h && h in p.pending
    requires var x := p.pending[h];
             x.source == e.source && e.msg.known(x.peer) && e.msg.proves(x.hk) && !x.accepted && !x.installing
    requires forall k :: k in p.pending && k != h && p.pending[k].source == e.source ==>
               !p.pending[k].installing || p.pending[k].accepted
    ensures var o, x := FinishStep(p, e.source, e.msg), p.pending[h];
            o.session == Some(Session(x.ref, h, x.peer, x.keys, x.psk)) && o.reply == Acknowledge(h, x.hk)
  {
  }

  lemma {:induction false} HelloRepeated(p: State, e: Event, h: Hash)
    requires e.Handle? && e.msg.Hello? && e.msg.peer.Some? && e.msg.sound && Timely(e.msg.stamp, e.now)
    requires SenderTable(p, Fullness(p, e.msg), e.source, e.now, e.choice).1 && Allow(p.global, e.now, Shared).1
    requires e.msg.replay in p.replay && IsCached(p, e.source, e.msg, e.choice.cached)
    requires forall k :: IsCached(p, e.source, e.msg, k) ==> k == h
    ensures var o := HelloStep(p, Fullness(p, e.msg), e.source, e.now, e.msg, e.choice);
            && o.reply == Respond(p.pending[h].response) && o.stage == Retransmitted && o.session == None
            && o.state.pending == p.pending && o.state.replay == p.replay && o.state.peerLimits == p.peerLimits
  {
  }

  lemma {:induction false} GrantAfter(p: State, pending: map<Hash, Entry>, e: Event, f: Event)
    requires e.Handle? && e.msg.Hello? && e.msg.peer.Some? && e.msg.offer.Some? && Unclaimed(p, e.msg, e.source)
    requires f.Handle? && e.now <= f.now < e.now + PENDING_LIFE
    requires pending == p.pending[e.msg.offer.value.hash := NewEntry(p, e.source, e.now, e.msg, e.msg.peer.value)]
    ensures var h, live := e.msg.offer.value.hash, LivePending(pending, f.now);
            && h in live && live[h] == NewEntry(p, e.source, e.now, e.msg, e.msg.peer.value)
            && (forall k :: k in live && k != h && live[k].source == e.source ==>
                  !live[k].installing || live[k].accepted)
            && (forall k :: k in live && live[k].digest == e.msg.digest ==> k == h)
  {
  }

  // Everything a hello needs to be accepted in state s.
  ghost predicate Welcome(s: State, e: Event) {
    && e.Handle? && e.msg.Hello? && e.msg.peer.Some? && e.msg.offer.Some?
    && e.msg.sound && e.msg.signed && e.msg.kemValid && Timely(e.msg.stamp, e.now)
    && Room(PruneState(s, e.now), e) && Unclaimed(s, e.msg, e.source)
  }

  lemma {:induction false} WelcomeStep(s: State, e: Event)
    requires Welcome(s, e)
    ensures var o, p, offer := Step(s, e), PruneState(s, e.now), e.msg.offer.value;
            && o.reply == Respond(offer.response) && Unclaimed(p, e.msg, e.source)
            && o.state.pending == p.pending[offer.hash := NewEntry(p, e.source, e.now, e.msg, e.msg.peer.value)]
            && e.msg.replay in o.state.replay && o.state.replay[e.msg.replay] == e.now + REPLAY_LIFE
  {
    HelloAccepted(PruneState(s, e.now), e);
  }

  // Its finish within 30 seconds, in the state the hello left.
  lemma {:induction false} FinishAfter(p: State, s: State, e: Event, f: Event)
    requires e.Handle? && e.msg.Hello? && e.msg.peer.Some? && e.msg.offer.Some? && Unclaimed(p, e.msg, e.source)
    requires s.pending == p.pending[e.msg.offer.value.hash := NewEntry(p, e.source, e.now, e.msg, e.msg.peer.value)]
    requires f.Handle? && f.msg.Finish? && f.source == e.source && e.now <= f.now < e.now + PENDING_LIFE
    requires f.msg.hash == e.msg.offer.value.hash && f.msg.proves(e.msg.offer.value.hk) && f.msg.known(e.msg.peer.value)
    ensures var o, offer := Step(s, f), e.msg.offer.value;
            && o.session == Some(Session(p.next, offer.hash, e.msg.peer.value, e.msg.keys, offer.psk))
            && o.reply == Acknowledge(offer.hash, offer.hk)
  {
    GrantAfter(p, s.pending, e, f);
    FinishGranted(PruneState(s, f.now), f, e.msg.offer.value.hash);
  }

  lemma {:induction false} ExchangeSteps(s: State, e: Event, f: Event)
    requires Welcome(s, e)
    requires f.Handle? && f.msg.Finish? && f.source == e.source && e.now <= f.now < e.now + PENDING_LIFE
    requires f.msg.hash == e.msg.offer.value.hash && f.msg.proves(e.msg.offer.value.hk) && f.msg.known(e.msg.peer.value)
    ensures var o, offer := Step(Step(s, e).state, f), e.msg.offer.value;
            && o.session == Some(Session(s.next, offer.hash, e.msg.peer.value, e.msg.keys, offer.psk))
            && o.reply == Acknowledge(offer.hash, offer.hk)
  {
    WelcomeStep(s, e);
    FinishAfter(PruneState(s, e.now), Step(s, e).state, e, f);
  }

  // The same hello again within 30 seconds.
  ghost predicate Again(e: Event, f: Event) {
    && e.Handle? && e.msg.Hello? && e.msg.peer.Some? && e.msg.offer.Some?
    && f.Handle? && f.msg.Hello? && f.source == e.source && e.now <= f.now < e.now + PENDING_LIFE
    && f.msg.sound && Timely(f.msg.stamp, f.now) && f.msg.peer == e.msg.peer
    && f.msg.replay == e.msg.replay && f.msg.digest == e.msg.digest
  }

  lemma {:induction false} CachedAfter(p: State, s: State, e: Event, f: Event)
    requires Again(e, f) && Unclaimed(p, e.msg, e.source) && Feasible(s, f)
    requires s.pending == p.pending[e.msg.offer.value.hash := NewEntry(p, e.source, e.now, e.msg, e.msg.peer.value)]
    requires e.msg.replay in s.replay && s.replay[e.msg.replay] == e.now + REPLAY_LIFE
    ensures var q, h := PruneState(s, f.now), e.msg.offer.value.hash;
            && f.msg.replay in q.replay && h in q.pending && q.pending[h].response == e.msg.offer.value.response
            && IsCached(q, f.source, f.msg, f.choice.cached) && (forall k :: IsCached(q, f.source, f.msg, k) ==> k == h)
  {
    var q, h := PruneState(s, f.now), e.msg.offer.value.hash;
    GrantAfter(p, s.pending, e, f);
    assert IsCached(q, f.source, f.msg, h);
  }

  // Tokens for the sender and in the shared bucket are all a repeated hello needs.
  ghost predicate Funds(q: State, f: Event)
    requires f.Handle? && f.msg.Hello?
  {
    SenderTable(q, Fullness(q, f.msg), f.source, f.now, f.choice).1 && Allow(q.global, f.now, Shared).1
  }

  // The same reply, and nothing recorded or charged to the identity.
  ghost predicate Repeats(s1: State, now: int, first: Outcome, o: Outcome) {
    var q := PruneState(s1, now);
    && o.reply == first.reply && o.session == None
    && o.state.pending == q.pending && o.state.replay == q.replay && o.state.peerLimits == q.peerLimits
  }

  lemma {:induction false} RepeatAt(p: State, s: State, first: Outcome, e: Event, f: Event)
    requires Again(e, f) && Unclaimed(p, e.msg, e.source) && Feasible(s, f) && Funds(PruneState(s, f.now), f)
    requires s.pending == p.pending[e.msg.offer.value.hash := NewEntry(p, e.source, e.now, e.msg, e.msg.peer.value)]
    requires e.msg.replay in s.replay && s.replay[e.msg.replay] == e.now + REPLAY_LIFE
    requires first.reply == Respond(e.msg.offer.value.response)
    ensures Repeats(s, f.now, first, Step(s, f))
  {
    CachedAfter(p, s, e, f);
    RepeatNow(s, first, e, f, e.msg.offer.value.hash);
  }

  lemma {:induction false} RepeatNow(s: State, first: Outcome, e: Event, f: Event, h: Hash)
    requires f.Handle? && f.msg.Hello? && f.msg.sound && Timely(f.msg.stamp, f.now) && f.msg.peer.Some?
             && Funds(PruneState(s, f.now), f)
    requires e.Handle? && e.msg.Hello? && e.msg.offer.Some? && first.reply == Respond(e.msg.offer.value.response)
    requires var q := PruneState(s, f.now);
             && f.msg.replay in q.replay && h in q.pending && q.pending[h].response == e.msg.offer.value.response
             && IsCached(q, f.source, f.msg, f.choice.cached)
             && (forall k :: IsCached(q, f.source, f.msg, k) ==> k == h)
    ensures Repeats(s, f.now, first, Step(s, f))
  {
    HelloRepeated(PruneState(s, f.now), f, h);
  }

  lemma {:induction false} RepeatStep(s: State, e: Event, f: Event)
    requires Welcome(s, e) && Again(e, f) && Feasible(Step(s, e).state, f)
             && Funds(PruneState(Step(s, e).state, f.now), f)
    ensures Repeats(Step(s, e).state, f.now, Step(s, e), Step(Step(s, e).state, f))
  {
    WelcomeStep(s, e);
    RepeatAt(PruneState(s, e.now), Step(s, e).state, Step(s, e), e, f);
  }

  /* Bytes to bytes */

  ghost predicate Ready(cfg: Config, x: C.Setup, s: State, d: Delivery) {
    && Paired(cfg, x) && Authorized(cfg, x, d.auth) && KemInverts(cfg.suite, x.dk, d.draw.coins)
    && d.packet == C.HelloPacket(cfg.suite, x) && d.source == x.local.wg && d.draw.ok && Timely(Unix(x.now), d.now)
    && var e := EventOf(cfg, d);
       && e.msg.Hello? && e.msg.peer.Some?
       && Room(PruneState(s, d.now), e) && Unclaimed(s, e.msg, d.source)
  }

  function OfferTo(cfg: Config, x: C.Setup, d: Delivery): Offer { MakeOffer(cfg, C.HelloOf(cfg.suite, x), d.draw) }

  // The event of the honest hello, as Machine sees it.
  ghost predicate HonestHello(e: Event, d: Delivery, id: Key, keys: Keys, offer: Offer) {
    && e.Handle? && e.source == d.source && e.now == d.now
    && e.msg.Hello? && e.msg.peer == Some(id) && e.msg.keys == keys && e.msg.offer == Some(offer)
  }

  lemma {:induction false} HonestWelcome(cfg: Config, x: C.Setup, s: State, d: Delivery)
    requires Ready(cfg, x, s, d)
    ensures Welcome(s, EventOf(cfg, d))
            && HonestHello(EventOf(cfg, d), d, C.ClientId(cfg.suite, x), x.local, OfferTo(cfg, x, d))
  {
    HelloReads(cfg, x, d);
  }

  // NewClient, Handle, Complete: the server answers and the client derives the server's PSK.
  lemma {:induction false} HonestOffer(cfg: Config, x: C.Setup, s: State, d: Delivery)
    requires Ready(cfg, x, s, d)
    ensures var su, offer := cfg.suite, OfferTo(cfg, x, d);
            var client := C.NewClient(su, x);
            && client.Some? && client.value.1 == d.packet
            && ReplyBytes(su, Step(s, EventOf(cfg, d)).reply) == Some(offer.response)
            && C.Complete(su, client.value.0, offer.response)
               == (client.value.0.(live := false, ack := Some(Ack(su, offer.hk, offer.hash))),
                   Some((offer.psk, Crypto.Finish(su, offer.hk, offer.hash))))
  {
    OfferCompletes(cfg, x, d.draw);
    HonestWelcome(cfg, x, s, d);
    WelcomeStep(s, EventOf(cfg, d));
  }

  lemma {:induction false} GrantedBytes(su: Suite, s: State, e: Event, f: Event, d: Delivery, id: Key, keys: Keys,
                                        offer: Offer)
    requires Welcome(s, e) && HonestHello(e, d, id, keys, offer)
    requires f.Handle? && f.msg.Finish? && f.source == e.source && e.now <= f.now < e.now + PENDING_LIFE
    requires f.msg.hash == offer.hash && f.msg.proves(offer.hk) && f.msg.known(id)
    ensures var r := Step(Step(s, e).state, f);
            && r.session == Some(Session(s.next, offer.hash, id, keys, offer.psk))
            && ReplyBytes(su, r.reply) == Some(Ack(su, offer.hk, offer.hash))
  {
    ExchangeSteps(s, e, f);
  }

  // The finish of that client within 30 seconds: the session carries the client's identity, keys and PSK,
  // and the acknowledgement is the frame the client waits for.
  lemma {:induction false} HonestFinish(cfg: Config, x: C.Setup, s: State, d: Delivery, f: Delivery)
    requires Ready(cfg, x, s, d)
    requires f.packet == Crypto.Finish(cfg.suite, OfferTo(cfg, x, d).hk, OfferTo(cfg, x, d).hash)
    requires f.source == d.source && d.now <= f.now < d.now + PENDING_LIFE
             && Lookup(f.auth, C.ClientId(cfg.suite, x)) != []
    ensures var su, offer := cfg.suite, OfferTo(cfg, x, d);
            var r := Step(Step(s, EventOf(cfg, d)).state, EventOf(cfg, f));
            && r.session == Some(Session(s.next, offer.hash, C.ClientId(su, x), x.local, offer.psk))
            && ReplyBytes(su, r.reply) == Some(Ack(su, offer.hk, offer.hash))
  {
    var offer := OfferTo(cfg, x, d);
    HonestWelcome(cfg, x, s, d);
    FinishReads(cfg, f, offer.hk, offer.hash);
    GrantedBytes(cfg.suite, s, EventOf(cfg, d), EventOf(cfg, f), d, C.ClientId(cfg.suite, x), x.local, offer);
  }

  lemma {:induction false} HonestAgain(cfg: Config, x: C.Setup, d: Delivery, f: Delivery)
    requires Paired(cfg, x) && Authorized(cfg, x, d.auth) && Authorized(cfg, x, f.auth)
    requires d.packet == f.packet == C.HelloPacket(cfg.suite, x) && d.source == f.source == x.local.wg && d.draw.ok
    requires d.now <= f.now < d.now + PENDING_LIFE && Timely(Unix(x.now), f.now)
    ensures Again(EventOf(cfg, d), EventOf(cfg, f))
  {
    HelloReads(cfg, x, d);
    HelloReads(cfg, x, f);
  }

  // The same hello packet again within 30 seconds: the identical response,
  // and no new pending, replay or identity charge.
  lemma {:induction false} HonestRetransmission(cfg: Config, x: C.Setup, s: State, d: Delivery, f: Delivery)
    requires Ready(cfg, x, s, d) && Authorized(cfg, x, f.auth)
    requires f.packet == d.packet && f.source == d.source
    requires d.now <= f.now < d.now + PENDING_LIFE && Timely(Unix(x.now), f.now)
    requires Feasible(Step(s, EventOf(cfg, d)).state, EventOf(cfg, f))
    requires EventOf(cfg, f).msg.Hello? && Funds(PruneState(Step(s, EventOf(cfg, d)).state, f.now), EventOf(cfg, f))
    ensures var o := Step(s, EventOf(cfg, d));
            Repeats(o.state, f.now, o, Step(o.state, EventOf(cfg, f)))
  {
    HonestWelcome(cfg, x, s, d);
    HonestAgain(cfg, x, d, f);
    RepeatStep(s, EventOf(cfg, d), EventOf(cfg, f));
  }
}
