/** One whole exchange: a behaviour in which a bootstrap returns, and to which the agreement theorem applies. */
module Exchange {
  import opened Bytes
  import opened Wire
  import opened Crypto
  import opened Bucket
  import opened Machine
  import opened Handshake
  import opened Runs
  import opened Completeness
  import opened Agreement
  import C = Client

  // From the start state an honest hello needs nothing but itself.
  lemma {:induction false} StartHasRoom(e: Event)
    requires e.Handle? && e.msg.Hello? && e.msg.peer.Some? && e.now != ZERO_TIME
    ensures Room(PruneState(START, e.now), e) && Unclaimed(START, e.msg, e.source)
  {
    assert PruneState(START, e.now) == START;
    assert Owned(map[], e.msg.peer.value) == {};
  }

  // The honest client, the server and one exchange of frames.
  ghost predicate Honest(cfg: Config, x: C.Setup, d: Delivery, f: Delivery) {
    && Paired(cfg, x) && Authorized(cfg, x, d.auth) && KemInverts(cfg.suite, x.dk, d.draw.coins)
    && d.packet == C.HelloPacket(cfg.suite, x) && d.source == x.local.wg && d.draw.ok && Timely(Unix(x.now), d.now)
    && f.packet == Crypto.Finish(cfg.suite, OfferTo(cfg, x, d).hk, OfferTo(cfg, x, d).hash) && f.source == d.source
    && ZERO_TIME != d.now <= f.now < d.now + PENDING_LIFE && Lookup(f.auth, C.ClientId(cfg.suite, x)) != []
  }

  lemma {:induction false} HonestReady(cfg: Config, x: C.Setup, d: Delivery, f: Delivery)
    requires Honest(cfg, x, d, f)
    ensures Ready(cfg, x, START, d)
  {
    HelloReads(cfg, x, d);
    StartHasRoom(EventOf(cfg, d));
  }

  /* The six states of that exchange */

  ghost function Offered(cfg: Config, x: C.Setup, d: Delivery): Bytes { OfferTo(cfg, x, d).response }

  ghost function AckOf(cfg: Config, x: C.Setup, d: Delivery): Bytes {
    Ack(cfg.suite, OfferTo(cfg, x, d).hk, OfferTo(cfg, x, d).hash)
  }

  ghost function InitialClient(cfg: Config, x: C.Setup): C.Client {
    C.Client(C.HelloOf(cfg.suite, x), ID(cfg.suite, x.serverPublic), x.serverPublic, x.remote, x.dk, true, None)
  }

  ghost function Finishing(cfg: Config, x: C.Setup, d: Delivery, f: Delivery, status: C.Status): C.Loop {
    C.Loop(InitialClient(cfg, x).(live := false, ack := Some(AckOf(cfg, x, d))), f.packet, OfferTo(cfg, x, d).psk, true,
           status)
  }

  ghost function Spawned(cfg: Config, x: C.Setup, d: Delivery): Sys {
    Sys([], map[0 := Peer(x, C.Begin(InitialClient(cfg, x), d.packet))], {} + {d.packet})
  }

  ghost function Greeted(cfg: Config, x: C.Setup, d: Delivery): Sys {
    var y := Spawned(cfg, x, d);
    Sys([Deliver(d)], y.peers, y.net + {Offered(cfg, x, d)})
  }

  ghost function Convinced(cfg: Config, x: C.Setup, d: Delivery, f: Delivery): Sys {
    var y := Greeted(cfg, x, d);
    Sys(y.inputs, y.peers[0 := Peer(x, Finishing(cfg, x, d, f, C.Running))], y.net + {f.packet})
  }

  ghost function Granted(cfg: Config, x: C.Setup, d: Delivery, f: Delivery): Sys {
    var y := Convinced(cfg, x, d, f);
    Sys([Deliver(d), Deliver(f)], y.peers, y.net + {AckOf(cfg, x, d)})
  }

  ghost function Done(cfg: Config, x: C.Setup, d: Delivery, f: Delivery): Sys {
    var y := Granted(cfg, x, d, f);
    Sys(y.inputs, y.peers[0 := Peer(x, Finishing(cfg, x, d, f, C.Returned(OfferTo(cfg, x, d).psk)))], y.net + {})
  }

  lemma {:induction false} ServeMove(cfg: Config, y: Sys, d: Delivery, frame: Bytes)
    requires d.packet in y.net && Answer(cfg, y, Deliver(d)) == Some(frame)
    ensures Next(cfg, y, Sys(y.inputs + [Deliver(d)], y.peers, y.net + {frame}), Serve(Deliver(d)))
  {
  }

  lemma {:induction false} SpawnMove(cfg: Config, x: C.Setup, d: Delivery, f: Delivery)
    requires Honest(cfg, x, d, f)
    ensures Next(cfg, Sys([], map[], {}), Spawned(cfg, x, d), Spawn(0, x))
  {
  }

  lemma {:induction false} GreetAnswer(cfg: Config, x: C.Setup, d: Delivery, f: Delivery, y: Sys)
    requires Honest(cfg, x, d, f) && y.inputs == []
    ensures Answer(cfg, y, Deliver(d)) == Some(Offered(cfg, x, d))
  {
    HonestReady(cfg, x, d, f);
    HonestOffer(cfg, x, START, d);
  }

  lemma {:induction false} GreetMove(cfg: Config, x: C.Setup, d: Delivery, f: Delivery)
    requires Honest(cfg, x, d, f)
    ensures Next(cfg, Spawned(cfg, x, d), Greeted(cfg, x, d), Serve(Deliver(d)))
  {
    GreetAnswer(cfg, x, d, f, Spawned(cfg, x, d));
    ServeMove(cfg, Spawned(cfg, x, d), d, Offered(cfg, x, d));
    assert [] + [Deliver(d)] == [Deliver(d)];
  }

  lemma {:induction false} ConvinceMove(cfg: Config, x: C.Setup, d: Delivery, f: Delivery)
    requires Honest(cfg, x, d, f)
    ensures Next(cfg, Greeted(cfg, x, d), Convinced(cfg, x, d, f), Signal(0, C.Receive(Offered(cfg, x, d), true)))
  {
    HonestReady(cfg, x, d, f);
    HonestOffer(cfg, x, START, d);
    assert C.LoopStep(cfg.suite, C.Begin(InitialClient(cfg, x), d.packet), C.Receive(Offered(cfg, x, d), true))
        == (Finishing(cfg, x, d, f, C.Running), Some(f.packet));
  }

  lemma {:induction false} GrantAnswer(cfg: Config, x: C.Setup, d: Delivery, f: Delivery, y: Sys)
    requires Honest(cfg, x, d, f) && y.inputs == [Deliver(d)]
    ensures Answer(cfg, y, Deliver(f)) == Some(AckOf(cfg, x, d))
  {
    HonestReady(cfg, x, d, f);
    HonestFinish(cfg, x, START, d, f);
    AfterOne(cfg, d);
  }

  lemma {:induction false} GrantMove(cfg: Config, x: C.Setup, d: Delivery, f: Delivery)
    requires Honest(cfg, x, d, f)
    ensures Next(cfg, Convinced(cfg, x, d, f), Granted(cfg, x, d, f), Serve(Deliver(f)))
  {
    GrantAnswer(cfg, x, d, f, Convinced(cfg, x, d, f));
    ServeMove(cfg, Convinced(cfg, x, d, f), f, AckOf(cfg, x, d));
    assert [Deliver(d)] + [Deliver(f)] == [Deliver(d), Deliver(f)];
  }

  lemma {:induction false} AfterOne(cfg: Config, d: Delivery)
    ensures After(Step, Lowered(cfg, [Deliver(d)])) == Step(START, EventOf(cfg, d)).state
  {
    assert [Deliver(d)][..0] == [];
    assert Lowered(cfg, [Deliver(d)]) == [EventOf(cfg, d)];
    assert [EventOf(cfg, d)][..0] == [];
  }

  lemma {:induction false} ReturnMove(cfg: Config, x: C.Setup, d: Delivery, f: Delivery)
    requires Honest(cfg, x, d, f)
    ensures Next(cfg, Granted(cfg, x, d, f), Done(cfg, x, d, f), Signal(0, C.Receive(AckOf(cfg, x, d), true)))
  {
    assert C.LoopStep(cfg.suite, Finishing(cfg, x, d, f, C.Running), C.Receive(AckOf(cfg, x, d), true))
        == (Finishing(cfg, x, d, f, C.Returned(OfferTo(cfg, x, d).psk)), None);
  }

  lemma {:induction false} Extend(cfg: Config, trace: seq<Sys>, z: Sys, a: Action)
    requires Behaves(cfg, trace) && Next(cfg, trace[|trace| - 1], z, a)
    ensures Behaves(cfg, trace + [z])
  {
    var more := trace + [z];
    forall i: nat | i + 1 < |more| ensures CanMove(cfg, more[i], more[i + 1]) {
      if i + 1 < |trace| { assert CanMove(cfg, trace[i], trace[i + 1]); }
    }
  }

  lemma {:induction false} ReachGreeted(cfg: Config, x: C.Setup, d: Delivery, f: Delivery) returns (trace: seq<Sys>)
    requires Honest(cfg, x, d, f)
    ensures Behaves(cfg, trace) && trace[|trace| - 1] == Greeted(cfg, x, d)
  {
    trace := [Sys([], map[], {})];
    SpawnMove(cfg, x, d, f);
    Extend(cfg, trace, Spawned(cfg, x, d), Spawn(0, x));
    trace := trace + [Spawned(cfg, x, d)];
    GreetMove(cfg, x, d, f);
    Extend(cfg, trace, Greeted(cfg, x, d), Serve(Deliver(d)));
    trace := trace + [Greeted(cfg, x, d)];
  }

  lemma {:induction false} ReachConvinced(cfg: Config, x: C.Setup, d: Delivery, f: Delivery) returns (trace: seq<Sys>)
    requires Honest(cfg, x, d, f)
    ensures Behaves(cfg, trace) && trace[|trace| - 1] == Convinced(cfg, x, d, f)
  {
    trace := ReachGreeted(cfg, x, d, f);
    ConvinceMove(cfg, x, d, f);
    Extend(cfg, trace, Convinced(cfg, x, d, f), Signal(0, C.Receive(Offered(cfg, x, d), true)));
    trace := trace + [Convinced(cfg, x, d, f)];
  }

  lemma {:induction false} ReachGranted(cfg: Config, x: C.Setup, d: Delivery, f: Delivery) returns (trace: seq<Sys>)
    requires Honest(cfg, x, d, f)
    ensures Behaves(cfg, trace) && trace[|trace| - 1] == Granted(cfg, x, d, f)
  {
    trace := ReachConvinced(cfg, x, d, f);
    GrantMove(cfg, x, d, f);
    Extend(cfg, trace, Granted(cfg, x, d, f), Serve(Deliver(f)));
    trace := trace + [Granted(cfg, x, d, f)];
  }

  /* The agreement theorem applies to it */

  // Beyond an honest exchange: a finish after Go's zero time, and tags that tell the known identities apart.
  ghost predicate Unambiguous(cfg: Config, x: C.Setup, d: Delivery, f: Delivery) {
    && f.now != ZERO_TIME
    && TagsDistinct(cfg.suite, Ids(d.auth) + Ids(f.auth) + {C.ClientId(cfg.suite, x)}, x.nonce)
  }

  lemma {:induction false} LoweredPair(cfg: Config, d: Delivery, f: Delivery)
    ensures Lowered(cfg, [Deliver(d), Deliver(f)]) == [EventOf(cfg, d), EventOf(cfg, f)]
  {
    LoweredAt(cfg, [Deliver(d), Deliver(f)], 0);
    LoweredAt(cfg, [Deliver(d), Deliver(f)], 1);
  }

  // The client's packet holds its hello, and the finish is no hello.
  lemma {:induction false} OnlyHello(cfg: Config, x: C.Setup, d: Delivery, f: Delivery)
    requires Honest(cfg, x, d, f)
    ensures IsHello(d.packet) && HelloIn(d.packet) == C.HelloOf(cfg.suite, x)
    ensures forall i: nat :: HelloAt([Deliver(d), Deliver(f)], i) <==> i == 0
  {
    HelloReads(cfg, x, d);
    HelloMeans(cfg, d);
    HelloPrefix(cfg.suite, x);
  }

  lemma {:induction false} HelloPrefix(su: Suite, x: C.Setup)
    requires IsHello(C.HelloPacket(su, x))
    ensures HelloIn(C.HelloPacket(su, x)) == C.HelloOf(su, x)
  {
    var hello := C.HelloOf(su, x);
    var sig := su.sign(x.secret, Ascii(CLIENT_CONTEXT), Frame(CLIENT_HELLO, hello));
    assert C.HelloPacket(su, x)[8..] == hello + sig;
    assert C.HelloPacket(su, x)[8..8 + HELLO_SIZE] == C.HelloPacket(su, x)[8..][..HELLO_SIZE];
  }

  // The only ServerHello sent is the offer, and its transcript is the server's.
  lemma {:induction false} OfferTranscript(cfg: Config, x: C.Setup, d: Delivery, f: Delivery, b: Bytes)
    requires Honest(cfg, x, d, f) && |b| == SERVER_SIZE && Frame(SERVER_HELLO, b) in Done(cfg, x, d, f).net
    ensures C.TranscriptFor(Done(cfg, x, d, f).peers[0].loop.client, b)
            == OfferBytes(cfg, C.HelloOf(cfg.suite, x), d.draw)
  {
    var su, hello, offer := cfg.suite, C.HelloOf(cfg.suite, x), OfferTo(cfg, x, d);
    var ct := Encapsulated(cfg, hello, d.draw).1;
    var sig := su.sign(cfg.secret, Ascii(SERVER_CONTEXT), OfferBytes(cfg, hello, d.draw));
    ServerFields(cfg.Id(), cfg.keys, d.draw.nonce, ct, sig, Proof(su, offer.hk, "server-finished", offer.hash));
    assert Frame(SERVER_HELLO, b) == offer.response;
    assert Frame(SERVER_HELLO, b)[8..] == b;
  }

  lemma {:induction false} OneTranscript(cfg: Config, x: C.Setup, d: Delivery, f: Delivery, t: Bytes)
    requires Honest(cfg, x, d, f) && Seen(cfg, Done(cfg, x, d, f), t)
    ensures t == OfferBytes(cfg, C.HelloOf(cfg.suite, x), d.draw)
  {
    var y := Done(cfg, x, d, f);
    OnlyHello(cfg, x, d, f);
    if c, b :| c in y.peers && |b| == SERVER_SIZE && Frame(SERVER_HELLO, b) in y.net
               && t == C.TranscriptFor(y.peers[c].loop.client, b) {
      OfferTranscript(cfg, x, d, f, b);
    }
  }

  lemma {:induction false} TagsTell(cfg: Config, x: C.Setup, d: Delivery, f: Delivery)
    requires Honest(cfg, x, d, f) && Unambiguous(cfg, x, d, f)
    ensures NoTagClash(cfg, Done(cfg, x, d, f))
  {
    var y, ids := Done(cfg, x, d, f), Ids(d.auth) + Ids(f.auth) + {C.ClientId(cfg.suite, x)};
    OnlyHello(cfg, x, d, f);
    OwnHelloFields(cfg.suite, x);
    forall a | KnownId(cfg, y, a) ensures a in ids {
      if i :| 0 <= i < |y.inputs| && y.inputs[i].Deliver? && a in Ids(y.inputs[i].d.auth) {
        assert i == 0 || i == 1;
      }
    }
  }

  lemma {:induction false} NoneCollide(cfg: Config, x: C.Setup, d: Delivery, f: Delivery)
    requires Honest(cfg, x, d, f)
    ensures NoCollisions(cfg, Done(cfg, x, d, f))
  {
    var y := Done(cfg, x, d, f);
    forall t, u | Seen(cfg, y, t) && Seen(cfg, y, u) ensures t == u {
      OneTranscript(cfg, x, d, f, t);
      OneTranscript(cfg, x, d, f, u);
    }
  }

  lemma {:induction false} DoneClocked(cfg: Config, x: C.Setup, d: Delivery, f: Delivery)
    requires Honest(cfg, x, d, f) && Unambiguous(cfg, x, d, f)
    ensures Clocked(Lowered(cfg, Done(cfg, x, d, f).inputs)) && NoncesFresh(Done(cfg, x, d, f))
  {
    LoweredPair(cfg, d, f);
  }

  lemma {:induction false} DoneKem(cfg: Config, x: C.Setup, d: Delivery, f: Delivery)
    requires Honest(cfg, x, d, f)
    ensures KemWorks(cfg, Done(cfg, x, d, f))
  {
    OnlyHello(cfg, x, d, f);
  }

  lemma {:induction false} DoneAssumed(cfg: Config, x: C.Setup, d: Delivery, f: Delivery)
    requires Honest(cfg, x, d, f) && Unambiguous(cfg, x, d, f)
    ensures Assumed(cfg, Done(cfg, x, d, f))
  {
    DoneClocked(cfg, x, d, f);
    DoneKem(cfg, x, d, f);
    TagsTell(cfg, x, d, f);
    NoneCollide(cfg, x, d, f);
  }

  // An honest client's bootstrap does return the server's PSK, in a behaviour that meets what the agreement theorem
  // assumes; by that theorem the server handed out one session, with that PSK.
  lemma {:induction false} BootstrapReturns(cfg: Config, x: C.Setup, d: Delivery, f: Delivery)
    returns (trace: seq<Sys>, j: nat)
    requires Honest(cfg, x, d, f) && Unambiguous(cfg, x, d, f)
    ensures Behaves(cfg, trace) && trace[|trace| - 1] == Done(cfg, x, d, f) && Assumed(cfg, trace[|trace| - 1])
    ensures var y := trace[|trace| - 1];
            var run := Lowered(cfg, y.inputs);
            && 0 in y.peers && y.peers[0].setup == x && y.peers[0].loop.status == C.Returned(OfferTo(cfg, x, d).psk)
            && j < |run| && At(Step, run, j).session.Some?
            && At(Step, run, j).session.value.psk == OfferTo(cfg, x, d).psk
            && At(Step, run, j).session.value.peer == C.ClientId(cfg.suite, x)
  {
    trace := ReachGranted(cfg, x, d, f);
    ReturnMove(cfg, x, d, f);
    Extend(cfg, trace, Done(cfg, x, d, f), Signal(0, C.Receive(AckOf(cfg, x, d), true)));
    trace := trace + [Done(cfg, x, d, f)];
    DoneAssumed(cfg, x, d, f);
    j := BootstrapAgrees(cfg, trace, 0);
  }

  // There is such an exchange, even with primitives that return constants.
  lemma {:induction false} ExchangeExists() returns (cfg: Config, x: C.Setup, d: Delivery, f: Delivery)
    ensures Honest(cfg, x, d, f) && Unambiguous(cfg, x, d, f)
  {
    var su := Suite(_ => Zeros(48), _ => ZERO_KEY, (_, _) => Zeros(48), (_, _) => [], (_, _) => ZERO_KEY,
                    (_, _, _) => Zeros(SIGNATURE_SIZE), (_, _, _, _) => true, _ => Zeros(PUBLIC_KEY_SIZE),
                    _ => true, (_, _) => ([], Zeros(CIPHERTEXT_SIZE)), (_, _) => [], _ => Zeros(KEM_KEY_SIZE));
    var local := Keys(ZERO_KEY, [1] + Zeros(31));
    var choice := Choice(ZERO_KEY, ZERO_KEY, Zeros(48));
    var auth := [(ZERO_KEY, Zeros(PUBLIC_KEY_SIZE))];
    var draw := Draw([], ZERO_KEY, true);
    cfg := Config(su, [], Zeros(PUBLIC_KEY_SIZE), local);
    x := C.Setup([], [], ZERO_KEY, Zeros(PUBLIC_KEY_SIZE), local, local, 0);
    d := Delivery(ZERO_KEY, C.HelloPacket(su, x), 0, auth, draw, choice);
    f := Delivery(ZERO_KEY, Crypto.Finish(su, OfferTo(cfg, x, d).hk, OfferTo(cfg, x, d).hash), 0, auth, draw, choice);
    assert local.disco[0] != ZERO_KEY[0];
    assert Lookup(auth, ZERO_KEY) == Zeros(PUBLIC_KEY_SIZE);
  }
}
