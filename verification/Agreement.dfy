/** Any number of clients and one server over a network that loses, duplicates, delays and reorders their frames. */
module Agreement {
  import opened Bytes
  import opened Wire
  import opened Crypto
  import opened Machine
  import opened Handshake
  import opened Runs
  import E = Entries
  import S = Sessions
  import C = Client

  /* The system */

  // A server step: a delivered frame, or one of its own (Expire, Installed, Close).
  datatype Input = Deliver(d: Delivery) | Local(e: Event)

  function Lower(cfg: Config, x: Input): Event { match x case Deliver(d) => EventOf(cfg, d) case Local(e) => e }

  function Lowered(cfg: Config, xs: seq<Input>): (run: seq<Event>)
    ensures |run| == |xs|
  {
    if xs == [] then [] else Lowered(cfg, xs[..|xs| - 1]) + [Lower(cfg, xs[|xs| - 1])]
  }

  // The server's own steps are not calls of Handle.
  ghost predicate OwnSteps(xs: seq<Input>) { forall k :: 0 <= k < |xs| && xs[k].Local? ==> !xs[k].e.Handle? }

  datatype Peer = Peer(setup: C.Setup, loop: C.Loop)

  // Server inputs so far, clients by number, and every frame ever sent: losing, delaying, duplicating and
  // reordering are all choices of which sent frame to deliver next.
  datatype Sys = Sys(inputs: seq<Input>, peers: map<nat, Peer>, net: set<Bytes>)

  datatype Action = Spawn(c: nat, setup: C.Setup) | Serve(input: Input) | Signal(c: nat, g: C.Signal)

  predicate Enabled(cfg: Config, y: Sys, a: Action) {
    match a
    case Spawn(c, x) => c !in y.peers && C.NewClient(cfg.suite, x).Some?
    case Serve(Deliver(d)) => d.packet in y.net
    case Serve(Local(e)) => !e.Handle?
    case Signal(c, g) => c in y.peers && (g.Receive? ==> g.reply in y.net)
  }

  function Answer(cfg: Config, y: Sys, x: Input): Option<Bytes> {
    ReplyBytes(cfg.suite, Step(After(Step, Lowered(cfg, y.inputs)), Lower(cfg, x)).reply)
  }

  function Sent(f: Option<Bytes>): set<Bytes> { if f.Some? then {f.value} else {} }

  function Apply(cfg: Config, y: Sys, a: Action): Sys
    requires Enabled(cfg, y, a)
  {
    match a
    case Spawn(c, x) =>
      var (client, hello) := C.NewClient(cfg.suite, x).value;
      y.(peers := y.peers[c := Peer(x, C.Begin(client, hello))], net := y.net + {hello})
    case Serve(x) => y.(inputs := y.inputs + [x], net := y.net + Sent(Answer(cfg, y, x)))
    case Signal(c, g) =>
      var (l, f) := C.LoopStep(cfg.suite, y.peers[c].loop, g);
      y.(peers := y.peers[c := y.peers[c].(loop := l)], net := y.net + Sent(f))
  }

  /* What every action keeps */

  predicate FromClient(f: Bytes) { |f| >= 8 && (f[5] == CLIENT_HELLO || f[5] == CLIENT_FINISH) }

  ghost predicate ServerSent(cfg: Config, inputs: seq<Input>, f: Bytes) {
    exists i :: 0 <= i < |inputs| && ReplyBytes(cfg.suite, At(Step, Lowered(cfg, inputs), i).reply) == Some(f)
  }

  // The client completed on ServerHello body b.
  ghost predicate CompletedOn(su: Suite, l: C.Loop, b: Bytes) {
    && |b| == SERVER_SIZE
    && var ss, hash := C.SecretFor(su, l.client, b), C.HashFor(su, l.client, b);
       l.psk == PskOf(su, ss, hash) && l.client.ack == Some(Ack(su, ConfirmKey(su, ss, hash), hash))
  }

  ghost predicate PeerSound(su: Suite, p: Peer, net: set<Bytes>) {
    && p.loop.client.hello == C.HelloOf(su, p.setup) && p.loop.client.dk == p.setup.dk && FromClient(p.loop.packet)
    && (p.loop.finishing ==> exists b :: CompletedOn(su, p.loop, b) && Frame(SERVER_HELLO, b) in net)
    && (p.loop.status.Returned? ==>
          p.loop.finishing && p.loop.status.key == p.loop.psk && p.loop.client.ack.value in net)
  }

  ghost predicate Sound(cfg: Config, y: Sys) {
    && (forall f :: f in y.net ==> FromClient(f) || ServerSent(cfg, y.inputs, f))
    && (forall c :: c in y.peers ==> PeerSound(cfg.suite, y.peers[c], y.net))
    && OwnSteps(y.inputs)
  }

  lemma {:induction false} LoweredAt(cfg: Config, xs: seq<Input>, i: nat)
    requires i < |xs|
    ensures Lowered(cfg, xs)[i] == Lower(cfg, xs[i]) && Lowered(cfg, xs)[..i] == Lowered(cfg, xs[..i])
  {
    var n := |xs| - 1;
    if i < n {
      LoweredAt(cfg, xs[..n], i);
      assert xs[..n][..i] == xs[..i];
    }
  }

  lemma {:induction false} AtPrefix(step: StepFn, run: seq<Event>, more: seq<Event>, i: nat)
    requires i < |run| <= |more| && more[..|run|] == run
    ensures At(step, run, i) == At(step, more, i)
  {
    assert run[..i] == more[..i];
    assert run[i] == more[i];
  }

  lemma {:induction false} SentStays(cfg: Config, inputs: seq<Input>, x: Input, f: Bytes)
    requires ServerSent(cfg, inputs, f)
    ensures ServerSent(cfg, inputs + [x], f)
  {
    var i :| 0 <= i < |inputs| && ReplyBytes(cfg.suite, At(Step, Lowered(cfg, inputs), i).reply) == Some(f);
    LoweredAt(cfg, inputs + [x], |inputs|);
    assert (inputs + [x])[..|inputs|] == inputs;
    AtPrefix(Step, Lowered(cfg, inputs), Lowered(cfg, inputs + [x]), i);
  }

  lemma {:induction false} AnswerSent(cfg: Config, y: Sys, x: Input)
    requires Answer(cfg, y, x).Some?
    ensures ServerSent(cfg, y.inputs + [x], Answer(cfg, y, x).value)
  {
    var xs := y.inputs + [x];
    LoweredAt(cfg, xs, |y.inputs|);
    assert xs[..|y.inputs|] == y.inputs;
    assert At(Step, Lowered(cfg, xs), |y.inputs|) == Step(After(Step, Lowered(cfg, y.inputs)), Lower(cfg, x));
  }

  lemma {:induction false} ServeSound(cfg: Config, y: Sys, x: Input)
    requires Sound(cfg, y) && Enabled(cfg, y, Serve(x))
    ensures Sound(cfg, Apply(cfg, y, Serve(x)))
  {
    var z := Apply(cfg, y, Serve(x));
    forall f | f in z.net
      ensures FromClient(f) || ServerSent(cfg, z.inputs, f)
    {
      if f in y.net {
        if !FromClient(f) { SentStays(cfg, y.inputs, x, f); }
      } else {
        AnswerSent(cfg, y, x);
      }
    }
    forall c | c in z.peers ensures PeerSound(cfg.suite, z.peers[c], z.net) {
      PeerKeeps(cfg.suite, y.peers[c], y.net, z.net);
    }
  }

  lemma {:induction false} PeerKeeps(su: Suite, p: Peer, net: set<Bytes>, more: set<Bytes>)
    requires PeerSound(su, p, net) && net <= more
    ensures PeerSound(su, p, more)
  {
    if p.loop.finishing {
      var b :| CompletedOn(su, p.loop, b) && Frame(SERVER_HELLO, b) in net;
      assert CompletedOn(su, p.loop, b) && Frame(SERVER_HELLO, b) in more;
    }
  }

  lemma {:induction false} SpawnSound(su: Suite, x: C.Setup, net: set<Bytes>)
    requires C.NewClient(su, x).Some?
    ensures var (client, hello) := C.NewClient(su, x).value;
            FromClient(hello) && PeerSound(su, Peer(x, C.Begin(client, hello)), net)
  {
  }

  lemma {:induction false} CompleteMeans(su: Suite, c: C.Client, packet: Bytes)
    requires C.Complete(su, c, packet).1.Some?
    ensures var (d, done) := C.Complete(su, c, packet);
            && d.hello == c.hello && d.dk == c.dk && FromClient(done.value.1)
            && exists b :: Frame(SERVER_HELLO, b) == packet
                           && CompletedOn(su, C.Loop(d, done.value.1, done.value.0, true, C.Running), b)
  {
    FrameOfParse(packet);
    var b := Parse(packet).value.1;
    assert CompletedOn(su, C.Loop(C.Complete(su, c, packet).0, C.Complete(su, c, packet).1.value.1,
                                  C.Complete(su, c, packet).1.value.0, true, C.Running), b);
  }

  lemma {:induction false} SignalSound(su: Suite, p: Peer, g: C.Signal, net: set<Bytes>)
    requires PeerSound(su, p, net) && (g.Receive? ==> g.reply in net)
    ensures var (l, f) := C.LoopStep(su, p.loop, g);
            PeerSound(su, p.(loop := l), net) && (f.Some? ==> FromClient(f.value))
  {
    var (l, f) := C.LoopStep(su, p.loop, g);
    if p.loop.status.Running? && g.Receive? && !p.loop.finishing {
      if C.Complete(su, p.loop.client, g.reply).1.Some? {
        CompleteMeans(su, p.loop.client, g.reply);
        var b :| Frame(SERVER_HELLO, b) == g.reply && CompletedOn(su, l.(status := C.Running), b);
        assert CompletedOn(su, l, b) && Frame(SERVER_HELLO, b) in net;
      } else {
        assert !l.finishing;
      }
    } else if p.loop.finishing {
      var b :| CompletedOn(su, p.loop, b) && Frame(SERVER_HELLO, b) in net;
      assert CompletedOn(su, l, b) && Frame(SERVER_HELLO, b) in net;
    }
  }

  lemma {:induction false} SpawnKeeps(cfg: Config, y: Sys, n: nat, x: C.Setup)
    requires Sound(cfg, y) && Enabled(cfg, y, Spawn(n, x))
    ensures Sound(cfg, Apply(cfg, y, Spawn(n, x)))
  {
    var z := Apply(cfg, y, Spawn(n, x));
    SpawnSound(cfg.suite, x, z.net);
    forall c | c in y.peers ensures PeerSound(cfg.suite, y.peers[c], z.net) {
      PeerKeeps(cfg.suite, y.peers[c], y.net, z.net);
    }
  }

  lemma {:induction false} SignalKeeps(cfg: Config, y: Sys, n: nat, g: C.Signal)
    requires Sound(cfg, y) && Enabled(cfg, y, Signal(n, g))
    ensures Sound(cfg, Apply(cfg, y, Signal(n, g)))
  {
    var z := Apply(cfg, y, Signal(n, g));
    SignalSound(cfg.suite, y.peers[n], g, y.net);
    forall c | c in y.peers && c != n ensures PeerSound(cfg.suite, y.peers[c], z.net) {
      PeerKeeps(cfg.suite, y.peers[c], y.net, z.net);
    }
    PeerKeeps(cfg.suite, z.peers[n], y.net, z.net);
  }

  lemma {:induction false} ActionSound(cfg: Config, y: Sys, a: Action)
    requires Sound(cfg, y) && Enabled(cfg, y, a)
    ensures Sound(cfg, Apply(cfg, y, a))
  {
    match a
    case Serve(x) => ServeSound(cfg, y, x);
    case Spawn(n, x) => SpawnKeeps(cfg, y, n, x);
    case Signal(n, g) => SignalKeeps(cfg, y, n, g);
  }

  ghost predicate Next(cfg: Config, y: Sys, z: Sys, a: Action) { Enabled(cfg, y, a) && z == Apply(cfg, y, a) }

  // Any finite behaviour of the system.
  ghost predicate Behaves(cfg: Config, trace: seq<Sys>) {
    && trace != [] && trace[0] == Sys([], map[], {})
    && forall i: nat :: i + 1 < |trace| ==> CanMove(cfg, trace[i], trace[i + 1])
  }

  ghost predicate CanMove(cfg: Config, y: Sys, z: Sys) { exists a :: Next(cfg, y, z, a) }

  lemma {:induction false} ReachedSound(cfg: Config, trace: seq<Sys>, n: nat)
    requires Behaves(cfg, trace) && n < |trace|
    ensures Sound(cfg, trace[n])
  {
    if n > 0 {
      ReachedSound(cfg, trace, n - 1);
      assert CanMove(cfg, trace[n - 1], trace[n - 1 + 1]);
      var a :| Next(cfg, trace[n - 1], trace[n], a);
      ActionSound(cfg, trace[n - 1], a);
    }
  }

  /* Hypotheses about the primitives, on the values of this behaviour only */

  ghost predicate HelloAt(xs: seq<Input>, i: nat) { i < |xs| && xs[i].Deliver? && IsHello(xs[i].d.packet) }

  ghost predicate Seen(cfg: Config, y: Sys, t: Bytes) {
    || (exists i: nat :: HelloAt(y.inputs, i)
                         && t == OfferBytes(cfg, HelloIn(y.inputs[i].d.packet), y.inputs[i].d.draw))
    || (exists c, b :: c in y.peers && |b| == SERVER_SIZE && Frame(SERVER_HELLO, b) in y.net
                       && t == C.TranscriptFor(y.peers[c].loop.client, b))
  }

  // SHA-384 has no collision among the transcripts of the behaviour.
  ghost predicate NoCollisions(cfg: Config, y: Sys) {
    forall t, u :: Seen(cfg, y, t) && Seen(cfg, y, u) && cfg.suite.sha384(t) == cfg.suite.sha384(u) ==> t == u
  }

  ghost predicate KnownId(cfg: Config, y: Sys, id: Key) {
    || (exists i :: 0 <= i < |y.inputs| && y.inputs[i].Deliver? && id in Ids(y.inputs[i].d.auth))
    || (exists c :: c in y.peers && id == C.ClientId(cfg.suite, y.peers[c].setup))
  }

  // No two identities of the behaviour share a tag under a delivered nonce.
  ghost predicate NoTagClash(cfg: Config, y: Sys) {
    forall i: nat, a, b :: HelloAt(y.inputs, i) && KnownId(cfg, y, a) && KnownId(cfg, y, b) ==>
      var n := HelloNonce(HelloIn(y.inputs[i].d.packet));
      PeerTag(cfg.suite, a, n) == PeerTag(cfg.suite, b, n) ==> a == b
  }

  // Each client's KEM key inverts the server's encapsulations.
  ghost predicate KemWorks(cfg: Config, y: Sys) {
    forall c, i: nat :: c in y.peers && HelloAt(y.inputs, i) ==>
      KemInverts(cfg.suite, y.peers[c].setup.dk, y.inputs[i].d.draw.coins)
  }

  // The server was closed between steps i and j.
  ghost predicate ClosedBetween(y: Sys, i: nat, j: nat) {
    exists k :: i <= k < j < |y.inputs| && y.inputs[k].Local? && y.inputs[k].e.Close?
  }

  // After a Close the server draws no nonce it drew before.
  ghost predicate NoncesFresh(y: Sys) {
    forall i: nat, j: nat :: HelloAt(y.inputs, i) && HelloAt(y.inputs, j) && ClosedBetween(y, i, j) ==>
      y.inputs[i].d.draw.nonce != y.inputs[j].d.draw.nonce
  }

  // All of this, and a sane clock at the server.
  ghost predicate Assumed(cfg: Config, y: Sys) {
    Clocked(Lowered(cfg, y.inputs)) && NoCollisions(cfg, y) && NoTagClash(cfg, y) && KemWorks(cfg, y) && NoncesFresh(y)
  }

  /* From a session back to bytes */

  // Session x was created for the hello delivered at i.
  ghost predicate Issued(cfg: Config, y: Sys, i: nat, x: Session) {
    && HelloAt(y.inputs, i)
    && var d := y.inputs[i].d;
       var hello := HelloIn(d.packet);
       var offer := MakeOffer(cfg, hello, d.draw);
       && x.hash == offer.hash && x.psk == offer.psk && x.keys == HelloKeys(hello)
       && PeerTag(cfg.suite, x.peer, HelloNonce(hello)) == Tag(hello) && x.peer in Ids(d.auth)
       && Lowered(cfg, y.inputs)[i] == EventOf(cfg, d)
       && EventOf(cfg, d).msg.Hello? && EventOf(cfg, d).msg.stamp == HelloStamp(hello)
       && EventOf(cfg, d).msg.replay == ReplayKey(cfg.suite, x.peer, HelloNonce(hello))
  }

  lemma {:induction false} HelloIssues(cfg: Config, d: Delivery, x: Session)
    requires var m := Interpret(cfg, d);
             && m.Hello? && m.peer == Some(x.peer) && m.offer.Some? && m.signed
             && x.hash == m.offer.value.hash && x.psk == m.offer.value.psk && x.keys == m.keys
    ensures IsHello(d.packet)
    ensures var hello := HelloIn(d.packet);
            var offer := MakeOffer(cfg, hello, d.draw);
            && x.hash == offer.hash && x.psk == offer.psk && x.keys == HelloKeys(hello)
            && PeerTag(cfg.suite, x.peer, HelloNonce(hello)) == Tag(hello) && x.peer in Ids(d.auth)
            && Interpret(cfg, d).stamp == HelloStamp(hello)
            && Interpret(cfg, d).replay == ReplayKey(cfg.suite, x.peer, HelloNonce(hello))
  {
    HelloMeans(cfg, d);
    var pub :| (x.peer, pub) in d.auth;
    assert x.peer in Ids(d.auth);
  }

  lemma {:induction false} SessionIssued(cfg: Config, y: Sys, j: nat) returns (i: nat)
    requires Sound(cfg, y) && j < |y.inputs| && At(Step, Lowered(cfg, y.inputs), j).session.Some?
    ensures Issued(cfg, y, i, At(Step, Lowered(cfg, y.inputs), j).session.value)
    ensures var x := At(Step, Lowered(cfg, y.inputs), j).session.value;
            At(Step, Lowered(cfg, y.inputs), i).stage == Accepted(x.peer, x.ref, x.hash)
  {
    var run := Lowered(cfg, y.inputs);
    i := S.Provenance(run, j);
    LoweredAt(cfg, y.inputs, i);
    HelloIssues(cfg, y.inputs[i].d, At(Step, run, j).session.value);
  }

  // Two sessions have one PSK exactly when they have one encapsulated secret and one transcript, as long as HKDF
  // does not collide on the two.
  lemma {:induction false} KeyTellsSession(cfg: Config, y: Sys, i: nat, x: Session, k: nat, z: Session)
    requires Issued(cfg, y, i, x) && Issued(cfg, y, k, z)
    requires var d, f := y.inputs[i].d, y.inputs[k].d;
             ExpandsApart(cfg.suite, Encapsulated(cfg, HelloIn(d.packet), d.draw).0, PskInfo(x.hash),
                          Encapsulated(cfg, HelloIn(f.packet), f.draw).0, PskInfo(z.hash))
    ensures var d, f := y.inputs[i].d, y.inputs[k].d;
            x.psk == z.psk <==>
              && Encapsulated(cfg, HelloIn(d.packet), d.draw).0 == Encapsulated(cfg, HelloIn(f.packet), f.draw).0
              && x.hash == z.hash
  {
    var d, f := y.inputs[i].d, y.inputs[k].d;
    KeysBind(cfg.suite, Encapsulated(cfg, HelloIn(d.packet), d.draw).0, x.hash,
             Encapsulated(cfg, HelloIn(f.packet), f.draw).0, z.hash);
  }

  /* Agreement */

  // Two sessions for one transcript come from one hello.
  lemma {:induction false} SameHello(cfg: Config, y: Sys, i: nat, k: nat, x: Session, z: Session)
    requires NoCollisions(cfg, y) && NoTagClash(cfg, y)
    requires Issued(cfg, y, i, x) && Issued(cfg, y, k, z) && x.hash == z.hash
    ensures HelloIn(y.inputs[i].d.packet) == HelloIn(y.inputs[k].d.packet) && x.peer == z.peer
    ensures y.inputs[i].d.draw.nonce == y.inputs[k].d.draw.nonce
  {
    var d, f := y.inputs[i].d, y.inputs[k].d;
    var t, u := OfferBytes(cfg, HelloIn(d.packet), d.draw), OfferBytes(cfg, HelloIn(f.packet), f.draw);
    assert Seen(cfg, y, t) && Seen(cfg, y, u);
    TranscriptInjective(HelloIn(d.packet), cfg.Id(), cfg.keys, d.draw.nonce,
                        Encapsulated(cfg, HelloIn(d.packet), d.draw).1,
                        HelloIn(f.packet), cfg.Id(), cfg.keys, f.draw.nonce,
                        Encapsulated(cfg, HelloIn(f.packet), f.draw).1);
    assert KnownId(cfg, y, x.peer) && KnownId(cfg, y, z.peer);
  }

  // A run without Close accepts one replay key and stamp at most once.
  lemma {:induction false} SameAccepted(run: seq<Event>, a: nat, b: nat)
    requires Clocked(run) && a < b < |run| && forall k :: a <= k < b ==> !run[k].Close?
    requires run[a].Handle? && run[a].msg.Hello? && run[b].Handle? && run[b].msg.Hello?
    requires run[a].msg.replay == run[b].msg.replay && run[a].msg.stamp == run[b].msg.stamp
    ensures !(At(Step, run, a).stage.Accepted? && At(Step, run, b).stage.Accepted?)
  {
    S.AcceptedOnce(run, a, b);
  }

  lemma {:induction false} SameReplay(cfg: Config, y: Sys, a: nat, b: nat, x: Session, z: Session)
    requires NoCollisions(cfg, y) && NoTagClash(cfg, y)
    requires Issued(cfg, y, a, x) && Issued(cfg, y, b, z) && x.hash == z.hash
    ensures var e, f := Lowered(cfg, y.inputs)[a], Lowered(cfg, y.inputs)[b];
            && e.Handle? && e.msg.Hello? && f.Handle? && f.msg.Hello?
            && e.msg.replay == f.msg.replay && e.msg.stamp == f.msg.stamp
    ensures y.inputs[a].d.draw.nonce == y.inputs[b].d.draw.nonce
  {
    SameHello(cfg, y, a, b, x, z);
  }

  // Two sessions of one transcript were accepted in one step.
  lemma {:induction false} SameStep(cfg: Config, y: Sys, a: nat, b: nat, x: Session, z: Session)
    requires Clocked(Lowered(cfg, y.inputs)) && NoCollisions(cfg, y) && NoTagClash(cfg, y) && NoncesFresh(y)
    requires Issued(cfg, y, a, x) && Issued(cfg, y, b, z) && x.hash == z.hash && a < b
    ensures !(At(Step, Lowered(cfg, y.inputs), a).stage.Accepted?
              && At(Step, Lowered(cfg, y.inputs), b).stage.Accepted?)
  {
    SameReplay(cfg, y, a, b, x, z);
    forall k | a <= k < b ensures !Lowered(cfg, y.inputs)[k].Close? {
      LoweredAt(cfg, y.inputs, k);
      if Lowered(cfg, y.inputs)[k].Close? { assert ClosedBetween(y, a, b); }
    }
    SameAccepted(Lowered(cfg, y.inputs), a, b);
  }

  // Step a accepted the hello of session x.
  ghost predicate AcceptedFor(run: seq<Event>, a: nat, x: Session) {
    a < |run| && At(Step, run, a).stage == Accepted(x.peer, x.ref, x.hash)
  }

  lemma {:induction false} SameRef(cfg: Config, y: Sys, a: nat, b: nat, x: Session, z: Session)
    requires Clocked(Lowered(cfg, y.inputs)) && NoCollisions(cfg, y) && NoTagClash(cfg, y) && NoncesFresh(y)
    requires Issued(cfg, y, a, x) && Issued(cfg, y, b, z) && x.hash == z.hash
    requires AcceptedFor(Lowered(cfg, y.inputs), a, x) && AcceptedFor(Lowered(cfg, y.inputs), b, z)
    ensures x.ref == z.ref
  {
    if a < b { SameStep(cfg, y, a, b, x, z); }
    if b < a { SameStep(cfg, y, b, a, z, x); }
  }

  lemma {:induction false} SessionFrom(cfg: Config, y: Sys, j: nat, x: Session) returns (i: nat)
    requires Sound(cfg, y) && j < |y.inputs| && At(Step, Lowered(cfg, y.inputs), j).session == Some(x)
    ensures Issued(cfg, y, i, x) && AcceptedFor(Lowered(cfg, y.inputs), i, x)
  {
    i := SessionIssued(cfg, y, j);
  }

  lemma {:induction false} SessionsDiffer(cfg: Config, y: Sys, j: nat, k: nat, x: Session, z: Session)
    requires Sound(cfg, y) && Clocked(Lowered(cfg, y.inputs)) && NoCollisions(cfg, y) && NoTagClash(cfg, y)
             && NoncesFresh(y)
    requires j < |y.inputs| && k < |y.inputs| && x.ref != z.ref
    requires At(Step, Lowered(cfg, y.inputs), j).session == Some(x)
             && At(Step, Lowered(cfg, y.inputs), k).session == Some(z)
    ensures x.hash != z.hash
  {
    var a := SessionFrom(cfg, y, j, x);
    var b := SessionFrom(cfg, y, k, z);
    if x.hash == z.hash { SameRef(cfg, y, a, b, x, z); }
  }

  lemma {:induction false} OneSession(cfg: Config, y: Sys, j: nat, k: nat)
    requires Sound(cfg, y) && Clocked(Lowered(cfg, y.inputs)) && NoCollisions(cfg, y) && NoTagClash(cfg, y)
             && NoncesFresh(y)
    requires j < k < |y.inputs|
    requires At(Step, Lowered(cfg, y.inputs), j).session.Some? && At(Step, Lowered(cfg, y.inputs), k).session.Some?
    ensures At(Step, Lowered(cfg, y.inputs), j).session.value.hash
            != At(Step, Lowered(cfg, y.inputs), k).session.value.hash
  {
    var run := Lowered(cfg, y.inputs);
    S.NoRollback(run, j, k);
    SessionsDiffer(cfg, y, j, k, At(Step, run, j).session.value, At(Step, run, k).session.value);
  }

  // The client's ack frame names the transcript it completed.
  function AckHash(ack: Bytes): Bytes
    requires |ack| == 8 + HASH_SIZE + PROOF_SIZE
  {
    ack[8..8 + HASH_SIZE]
  }

  lemma {:induction false} AckNames(su: Suite, hk: Key, hash: Hash)
    ensures var f := Ack(su, hk, hash);
            |f| == 8 + HASH_SIZE + PROOF_SIZE && AckHash(f) == hash && f[5] == SERVER_ACCEPTED
  {
    var proof := Proof(su, hk, "server-accepted", hash);
    var f := Ack(su, hk, hash);
    assert f[8..] == hash + proof;
    assert f[8..8 + HASH_SIZE] == f[8..][..HASH_SIZE];
  }

  // A frame of type 4 in the network is an acknowledgement the server sent.
  lemma {:induction false} AckCameFrom(cfg: Config, y: Sys, ack: Bytes) returns (i: nat)
    requires Sound(cfg, y) && ack in y.net && |ack| >= 8 && ack[5] == SERVER_ACCEPTED
    ensures i < |y.inputs|
    ensures var r := At(Step, Lowered(cfg, y.inputs), i).reply;
            r.Acknowledge? && ack == Ack(cfg.suite, r.hk, r.hash)
  {
    var run := Lowered(cfg, y.inputs);
    i :| 0 <= i < |y.inputs| && ReplyBytes(cfg.suite, At(Step, run, i).reply) == Some(ack);
    if At(Step, run, i).reply.Respond? {
      RespondsHello(cfg, y, i);
    }
  }

  lemma {:induction false} OfferKind(cfg: Config, d: Delivery)
    requires Interpret(cfg, d).Hello? && Interpret(cfg, d).offer.Some?
    ensures |Interpret(cfg, d).offer.value.response| >= 8 && Interpret(cfg, d).offer.value.response[5] == SERVER_HELLO
  {
    HelloMeans(cfg, d);
  }

  lemma {:induction false} RespondsHello(cfg: Config, y: Sys, i: nat)
    requires Sound(cfg, y) && i < |y.inputs| && At(Step, Lowered(cfg, y.inputs), i).reply.Respond?
    ensures var f := At(Step, Lowered(cfg, y.inputs), i).reply.frame;
            |f| >= 8 && f[5] == SERVER_HELLO
  {
    var run := Lowered(cfg, y.inputs);
    var s := After(Step, run[..i]);
    E.StepResponds(s, run[i]);
    var f := At(Step, run, i).reply.frame;
    if h :| h in s.pending && f == s.pending[h].response {
      S.StepExplains();
      var k := S.EntryOrigin(Step, run, i, h);
      LoweredAt(cfg, y.inputs, k);
      OfferKind(cfg, y.inputs[k].d);
    } else {
      LoweredAt(cfg, y.inputs, i);
      OfferKind(cfg, y.inputs[i].d);
    }
  }

  // Equal transcript hashes: the server saw the client's own hello and its ciphertext reached the client.
  lemma {:induction false} SameTranscript(cfg: Config, y: Sys, c: nat, b: Bytes, i: nat)
    requires NoCollisions(cfg, y)
    requires c in y.peers && |b| == SERVER_SIZE && Frame(SERVER_HELLO, b) in y.net && HelloAt(y.inputs, i)
    requires var d := y.inputs[i].d;
             cfg.suite.sha384(OfferBytes(cfg, HelloIn(d.packet), d.draw))
                 == C.HashFor(cfg.suite, y.peers[c].loop.client, b)
    ensures var d := y.inputs[i].d;
            HelloIn(d.packet) == y.peers[c].loop.client.hello
            && Encapsulated(cfg, HelloIn(d.packet), d.draw).1 == b[128..128 + CIPHERTEXT_SIZE]
  {
    var d, cl := y.inputs[i].d, y.peers[c].loop.client;
    var hello := HelloIn(d.packet);
    assert Seen(cfg, y, OfferBytes(cfg, hello, d.draw)) && Seen(cfg, y, C.TranscriptFor(cl, b));
    TranscriptInjective(hello, cfg.Id(), cfg.keys, d.draw.nonce, Encapsulated(cfg, hello, d.draw).1,
                        cl.hello, cl.server, cl.keys, b[96..128], b[128..128 + CIPHERTEXT_SIZE]);
  }

  lemma {:induction false} OwnHelloFields(su: Suite, z: C.Setup)
    ensures var hello := C.HelloOf(su, z);
            && Tag(hello) == PeerTag(su, C.ClientId(su, z), z.nonce) && HelloNonce(hello) == z.nonce
            && HelloKeys(hello) == z.local && HelloKem(hello) == su.kemPublic(z.dk)
  {
    HelloFields(PeerTag(su, C.ClientId(su, z), z.nonce), z.local, z.nonce, ID(su, z.serverPublic), C.Stamp(z.now),
                su.kemPublic(z.dk), []);
    assert C.HelloOf(su, z) + [] == C.HelloOf(su, z);
  }

  // Both ends derive one secret from the hello and its ciphertext.
  lemma {:induction false} SameSecret(cfg: Config, p: Peer, d: Delivery, b: Bytes)
    requires IsHello(d.packet) && |b| == SERVER_SIZE && KemInverts(cfg.suite, p.setup.dk, d.draw.coins)
    requires p.loop.client.dk == p.setup.dk
    requires HelloIn(d.packet) == C.HelloOf(cfg.suite, p.setup)
    requires Encapsulated(cfg, HelloIn(d.packet), d.draw).1 == b[128..128 + CIPHERTEXT_SIZE]
    ensures C.SecretFor(cfg.suite, p.loop.client, b) == Encapsulated(cfg, HelloIn(d.packet), d.draw).0
  {
    OwnHelloFields(cfg.suite, p.setup);
  }

  // The session issued for the client's transcript carries the client's PSK, identity and keys.
  lemma {:induction false} SessionMatches(cfg: Config, y: Sys, c: nat, b: Bytes, i: nat, x: Session)
    requires Sound(cfg, y) && NoCollisions(cfg, y) && NoTagClash(cfg, y) && KemWorks(cfg, y)
    requires c in y.peers && CompletedOn(cfg.suite, y.peers[c].loop, b) && Frame(SERVER_HELLO, b) in y.net
    requires Issued(cfg, y, i, x) && x.hash == C.HashFor(cfg.suite, y.peers[c].loop.client, b)
    ensures x.psk == y.peers[c].loop.psk
    ensures x.peer == C.ClientId(cfg.suite, y.peers[c].setup) && x.keys == y.peers[c].setup.local
  {
    var p, d := y.peers[c], y.inputs[i].d;
    SameTranscript(cfg, y, c, b, i);
    SameSecret(cfg, p, d, b);
    OwnHelloFields(cfg.suite, p.setup);
    assert KnownId(cfg, y, x.peer) && KnownId(cfg, y, C.ClientId(cfg.suite, p.setup));
  }

  // If a client's bootstrap returns a PSK, the server handed out exactly one session for that client's
  // transcript, with the same PSK, the client's PeerID and its WireGuard and discovery keys.
  lemma {:induction false} BootstrapAgrees(cfg: Config, trace: seq<Sys>, c: nat) returns (j: nat)
    requires Behaves(cfg, trace)
    requires var y := trace[|trace| - 1];
             Assumed(cfg, y) && c in y.peers && y.peers[c].loop.status.Returned?
    ensures var y := trace[|trace| - 1];
            var run, p := Lowered(cfg, y.inputs), y.peers[c];
            && p.loop.client.ack.Some? && |p.loop.client.ack.value| == 8 + HASH_SIZE + PROOF_SIZE
            && j < |run| && At(Step, run, j).session.Some?
            && var x := At(Step, run, j).session.value;
               && x.hash == AckHash(p.loop.client.ack.value) && x.psk == p.loop.status.key
               && x.peer == C.ClientId(cfg.suite, p.setup) && x.keys == p.setup.local
               && forall k :: 0 <= k < |run| && k != j && At(Step, run, k).session.Some? ==>
                    At(Step, run, k).session.value.hash != x.hash
  {
    var y := trace[|trace| - 1];
    ReachedSound(cfg, trace, |trace| - 1);
    var su, run, p := cfg.suite, Lowered(cfg, y.inputs), y.peers[c];
    var b :| CompletedOn(su, p.loop, b) && Frame(SERVER_HELLO, b) in y.net;
    var hash := C.HashFor(su, p.loop.client, b);
    AckNames(su, ConfirmKey(su, C.SecretFor(su, p.loop.client, b), hash), hash);
    var i := AckCameFrom(cfg, y, p.loop.client.ack.value);
    AckNames(su, At(Step, run, i).reply.hk, At(Step, run, i).reply.hash);
    j := S.AckHasSession(run, i);
    var k := SessionIssued(cfg, y, j);
    SessionMatches(cfg, y, c, b, k, At(Step, run, j).session.value);
    forall k | 0 <= k < |run| && k != j && At(Step, run, k).session.Some?
      ensures At(Step, run, k).session.value.hash != At(Step, run, j).session.value.hash
    {
      if k < j { OneSession(cfg, y, k, j); } else { OneSession(cfg, y, j, k); }
    }
  }
}
