/** The bootstrap client: its hello, the ServerHello checks, and the retry loop around them. */
module Client {
  import opened Bytes
  import opened Wire
  import opened Crypto
  import opened Machine

  // A client's long-term and per-attempt inputs: signing secret, KEM key, nonce, both ends' transport keys, clock.
  datatype Setup = Setup(secret: Bytes, dk: Bytes, nonce: Key, serverPublic: Bytes, local: Keys, remote: Keys, now: int)

  // `live` is false once the KEM key is destroyed; `ack` is the acknowledgement frame to expect.
  datatype Client = Client(hello: Bytes, server: Key, serverPublic: Bytes, keys: Keys, dk: Bytes, live: bool,
                           ack: Option<Bytes>)

  function ClientId(su: Suite, x: Setup): Key { ID(su, su.signer(x.secret)) }

  // Go's uint64(now.Unix()).
  function Stamp(now: int): Bytes { BigEndian(Unix(now) % 0x1_0000_0000_0000_0000, 8) }

  function HelloOf(su: Suite, x: Setup): (hello: Bytes)
    ensures |hello| == HELLO_SIZE
  {
    HelloBody(PeerTag(su, ClientId(su, x), x.nonce), x.local, x.nonce, ID(su, x.serverPublic), Stamp(x.now),
              su.kemPublic(x.dk))
  }

  function HelloPacket(su: Suite, x: Setup): Bytes {
    var hello := HelloOf(su, x);
    Frame(CLIENT_HELLO, hello + su.sign(x.secret, Ascii(CLIENT_CONTEXT), Frame(CLIENT_HELLO, hello)))
  }

  // None when the server's public key does not have its size.
  function NewClient(su: Suite, x: Setup): Option<(Client, Bytes)> {
    if |x.serverPublic| != PUBLIC_KEY_SIZE then None
    else Some((Client(HelloOf(su, x), ID(su, x.serverPublic), x.serverPublic, x.remote, x.dk, true, None),
               HelloPacket(su, x)))
  }

  // A client starts exactly with a server key of full size: its hello, a live KEM key, nothing to expect.
  lemma {:induction false} StartsExactly(su: Suite, x: Setup)
    ensures NewClient(su, x).Some? <==> |x.serverPublic| == 2592
    ensures NewClient(su, x).Some? ==>
              && NewClient(su, x).value.0
                 == Client(HelloOf(su, x), su.sha512t256(Ascii("qcat-peer-v1") + x.serverPublic), x.serverPublic,
                           x.remote, x.dk, true, None)
              && NewClient(su, x).value.1 == HelloPacket(su, x)
  {
  }

  // The secret and transcript hash a ServerHello body yields for this client.
  function TranscriptFor(c: Client, b: Bytes): Bytes
    requires |b| == SERVER_SIZE
  {
    Transcript(c.hello, c.server, c.keys, b[96..128], b[128..128 + CIPHERTEXT_SIZE])
  }

  function HashFor(su: Suite, c: Client, b: Bytes): Hash
    requires |b| == SERVER_SIZE
  {
    su.sha384(TranscriptFor(c, b))
  }

  function SecretFor(su: Suite, c: Client, b: Bytes): Bytes
    requires |b| == SERVER_SIZE
  {
    su.decaps(c.dk, b[128..128 + CIPHERTEXT_SIZE])
  }

  // Identity, transport keys, signature over the transcript, a live KEM key, and key confirmation.
  predicate Convinces(su: Suite, c: Client, b: Bytes)
    requires |b| == SERVER_SIZE
  {
    && b[..32] == c.server && b[32..64] == c.keys.wg && b[64..96] == c.keys.disco
    && Verify(su, c.serverPublic, SERVER_CONTEXT, TranscriptFor(c, b), b[128 + CIPHERTEXT_SIZE..|b| - PROOF_SIZE])
    && c.live
    && Proof(su, ConfirmKey(su, SecretFor(su, c, b), HashFor(su, c, b)), "server-finished", HashFor(su, c, b))
       == b[|b| - PROOF_SIZE..]
  }

  // The new client state and, on success, the PSK and the ClientFinish frame.
  function Complete(su: Suite, c: Client, packet: Bytes): (Client, Option<(Key, Bytes)>) {
    match Parse(packet)
    case None => (c, None)
    case Some((kind, b)) =>
      if kind != SERVER_HELLO || !Convinces(su, c, b) then (c, None) else
      var ss, hash := SecretFor(su, c, b), HashFor(su, c, b);
      var hk := ConfirmKey(su, ss, hash);
      (c.(live := false, ack := Some(Ack(su, hk, hash))), Some((PskOf(su, ss, hash), Crypto.Finish(su, hk, hash))))
  }

  /* When Complete succeeds, and with what */

  // The keys of a ServerHello with this nonce and ciphertext, written out.
  function HashWith(su: Suite, c: Client, nonce: Key, ct: Ciphertext): Hash {
    su.sha384(Transcript(c.hello, c.server, c.keys, nonce, ct))
  }

  function KeyWith(su: Suite, c: Client, nonce: Key, ct: Ciphertext, use: string): Key {
    su.expand(su.extract(su.decaps(c.dk, ct), Ascii("qcat-handshake-extract-v1")),
              Ascii(use) + HashWith(su, c, nonce, ct))
  }

  // The proof for a purpose under the confirmation key.
  function ProofWith(su: Suite, c: Client, nonce: Key, ct: Ciphertext, purpose: string): Hash {
    su.hmac(KeyWith(su, c, nonce, ct, "qcat-handshake-confirm-v3"), Ascii(purpose) + HashWith(su, c, nonce, ct))
  }

  // The packet is the ServerHello of this client's server with its transport keys, signed over the client's
  // transcript, and made by someone who has the secret the ciphertext hides.
  ghost predicate ServerSpoke(su: Suite, c: Client, packet: Bytes, nonce: Key, ct: Ciphertext, sig: Signature) {
    && c.live && |c.serverPublic| == 2592
    && su.verifies(c.serverPublic, Ascii("qcat-handshake-server-v1"),
                   Transcript(c.hello, c.server, c.keys, nonce, ct), sig)
    && packet == Frame(2, ServerBody(c.server, c.keys, nonce, ct, sig,
                                     ProofWith(su, c, nonce, ct, "server-finished")))
  }

  // What Complete then yields: the PSK, the ClientFinish, and the acknowledgement to wait for.
  ghost predicate Yields(su: Suite, c: Client, nonce: Key, ct: Ciphertext, r: (Client, Option<(Key, Bytes)>)) {
    var h := HashWith(su, c, nonce, ct);
    && r.1 == Some((KeyWith(su, c, nonce, ct, "qcat-wireguard-psk-v3"),
                    Frame(3, h + ProofWith(su, c, nonce, ct, "client-finished"))))
    && r.0 == c.(live := false, ack := Some(Frame(4, h + ProofWith(su, c, nonce, ct, "server-accepted"))))
  }

  // Complete succeeds only on a genuine ServerHello, and otherwise changes nothing.
  lemma {:induction false} CompletesOnly(su: Suite, c: Client, packet: Bytes)
    returns (nonce: Key, ct: Ciphertext, sig: Signature)
    ensures Complete(su, c, packet).1.Some? ==>
              ServerSpoke(su, c, packet, nonce, ct, sig) && Yields(su, c, nonce, ct, Complete(su, c, packet))
    ensures Complete(su, c, packet).1.None? ==> Complete(su, c, packet).0 == c
  {
    nonce, ct, sig := ZERO_KEY, Zeros(CIPHERTEXT_SIZE), Zeros(SIGNATURE_SIZE);
    if Complete(su, c, packet).1.Some? {
      FrameOfParse(packet);
      var b := Parse(packet).value.1;
      nonce, ct, sig := b[96..128], b[128..128 + CIPHERTEXT_SIZE], b[128 + CIPHERTEXT_SIZE..|b| - PROOF_SIZE];
      BodyOfFields(b);
    }
  }

  // And on every genuine one it does succeed.
  lemma {:induction false} CompletesOn(su: Suite, c: Client, packet: Bytes, nonce: Key, ct: Ciphertext, sig: Signature)
    requires ServerSpoke(su, c, packet, nonce, ct, sig)
    ensures Yields(su, c, nonce, ct, Complete(su, c, packet))
  {
    var proof := ProofWith(su, c, nonce, ct, "server-finished");
    ParseOfFrame(SERVER_HELLO, ServerBody(c.server, c.keys, nonce, ct, sig, proof));
    ServerFields(c.server, c.keys, nonce, ct, sig, proof);
  }

  predicate Accepts(c: Client, packet: Bytes) { c.ack == Some(packet) }

  // A client completes at most once: success destroys the KEM key, and then every ServerHello is refused.
  lemma {:induction false} CompletesOnce(su: Suite, c: Client, first: Bytes, second: Bytes)
    requires Complete(su, c, first).1.Some?
    ensures Complete(su, Complete(su, c, first).0, second) == (Complete(su, c, first).0, None)
  {
    FrameOfParse(first);
  }

  // What a completed client waits for: exactly the type-4 frame with its transcript's hash and the proof under its
  // confirmation key. A client that has not completed accepts nothing.
  lemma {:induction false} AcceptsExactly(su: Suite, c: Client, packet: Bytes, reply: Bytes)
    requires Complete(su, c, packet).1.Some?
    ensures Parse(packet).Some? && |Parse(packet).value.1| == SERVER_SIZE
    ensures var b := Parse(packet).value.1;
            var hash, hk := HashFor(su, c, b), ConfirmKey(su, SecretFor(su, c, b), HashFor(su, c, b));
            Accepts(Complete(su, c, packet).0, reply) <==>
              Parse(reply) == Some((SERVER_ACCEPTED, hash + Proof(su, hk, "server-accepted", hash)))
    ensures c.ack.None? ==> !Accepts(c, reply)
  {
    FrameOfParse(packet);
    var b := Parse(packet).value.1;
    var hash, hk := HashFor(su, c, b), ConfirmKey(su, SecretFor(su, c, b), HashFor(su, c, b));
    ParseOfFrame(SERVER_ACCEPTED, hash + Proof(su, hk, "server-accepted", hash));
    if Parse(reply).Some? { FrameOfParse(reply); }
  }

  // The client as the object it is: its acknowledgement and its KEM key change in place.
  class Attempt {
    const suite: Suite
    const hello: Bytes
    const server: Key
    const serverPublic: Bytes
    const keys: Keys
    const dk: Bytes
    var live: bool
    var ack: Option<Bytes>

    ghost function View(): Client
      reads this
    {
      Client(hello, server, serverPublic, keys, dk, live, ack)
    }

    constructor (su: Suite, x: Setup)
      ensures suite == su
      ensures View() == Client(HelloOf(su, x), ID(su, x.serverPublic), x.serverPublic, x.remote, x.dk, true, None)
    {
      suite, hello, server, serverPublic := su, HelloOf(su, x), ID(su, x.serverPublic), x.serverPublic;
      keys, dk, live, ack := x.remote, x.dk, true, None;
    }

    method OnServerHello(packet: Bytes) returns (done: Option<(Key, Bytes)>)
      modifies this
      ensures (View(), done) == Complete(suite, old(View()), packet)
    {
      var parsed := Parse(packet);
      if parsed.None? || parsed.value.0 != SERVER_HELLO {
        return None;
      }
      var b := parsed.value.1;
      if b[..32] != server || b[32..64] != keys.wg || b[64..96] != keys.disco {
        return None;
      }
      var ct := b[128..128 + CIPHERTEXT_SIZE];
      var tb := Transcript(hello, server, keys, b[96..128], ct);
      var sigEnd := |b| - PROOF_SIZE;
      if !Verify(suite, serverPublic, SERVER_CONTEXT, tb, b[128 + CIPHERTEXT_SIZE..sigEnd]) || !live {
        return None;
      }
      var ss, hash := suite.decaps(dk, ct), suite.sha384(tb);
      var hk := ConfirmKey(suite, ss, hash);
      if Proof(suite, hk, "server-finished", hash) != b[sigEnd..] {
        return None;
      }
      live := false;
      ack := Some(Ack(suite, hk, hash));
      return Some((PskOf(suite, ss, hash), Crypto.Finish(suite, hk, hash)));
    }

    method Accepted(packet: Bytes) returns (ok: bool)
      ensures ok == Accepts(View(), packet)
    {
      return ack == Some(packet);
    }

    method Close()
      modifies this
      ensures View() == old(View()).(live := false)
    {
      live := false;
    }
  }

  /* The retry loop of one bootstrap */

  datatype Status = Running | Returned(key: Key) | Stopped

  datatype Loop = Loop(client: Client, packet: Bytes, psk: Key, finishing: bool, status: Status)

  // Context end or send failure, one-second tick, or a frame from the relay.
  datatype Signal = Cancel | Tick(sendOk: bool) | Receive(reply: Bytes, sendOk: bool)

  function Begin(c: Client, packet: Bytes): Loop { Loop(c, packet, ZERO_KEY, false, Running) }

  // The next loop state and the frame it sends.
  function LoopStep(su: Suite, l: Loop, g: Signal): (Loop, Option<Bytes>) {
    if !l.status.Running? then (l, None) else
    match g
    case Cancel => (l.(status := Stopped), None)
    case Tick(ok) => (if ok then l else l.(status := Stopped), Some(l.packet))
    case Receive(reply, ok) =>
      if l.finishing then
        (if Accepts(l.client, reply) then l.(status := Returned(l.psk)) else l, None)
      else
        var (c, done) := Complete(su, l.client, reply);
        match done
        case None => (l.(client := c, psk := ZERO_KEY), None)
        case Some((psk, finish)) =>
          (Loop(c, finish, psk, true, if ok then Running else Stopped), Some(finish))
  }

  function LoopRun(su: Suite, l: Loop, gs: seq<Signal>): Loop
    decreases |gs|
  {
    if gs == [] then l else LoopRun(su, LoopStep(su, l, gs[0]).0, gs[1..])
  }

  // The frames it sends.
  function LoopSends(su: Suite, l: Loop, gs: seq<Signal>): seq<Bytes>
    decreases |gs|
  {
    if gs == [] then [] else
    var (next, f) := LoopStep(su, l, gs[0]);
    Opt(f) + LoopSends(su, next, gs[1..])
  }

  /* What the loop does, signal by signal and over runs */

  // A running loop repeats its packet at every tick; it turns to finishing on a ServerHello it can complete on, and
  // then sends that finish; it returns the key exactly on the acknowledgement it waits for; and a cancelled context
  // or a failed send stops it.
  lemma {:induction false} LoopExactly(su: Suite, l: Loop, g: Signal)
    requires l.status.Running?
    ensures var (next, f) := LoopStep(su, l, g);
            && (g.Tick? ==> f == Some(l.packet) && next == l.(status := next.status))
            && (g.Cancel? ==> f == None && next == l.(status := Stopped))
            && (next.status.Returned? <==> g.Receive? && l.finishing && l.client.ack == Some(g.reply))
            && (next.status.Returned? ==> next.status.key == l.psk)
            && (next.status.Stopped? <==>
                  g.Cancel? || (f.Some? && !g.sendOk))
            && (!l.finishing && next.finishing <==>
                  g.Receive? && !l.finishing && Complete(su, l.client, g.reply).1.Some?)
            && (!l.finishing && next.finishing ==>
                  var (psk, finish) := Complete(su, l.client, g.reply).1.value;
                  f == Some(finish) && next.packet == finish && next.psk == psk)
            && (g.Receive? && f.Some? ==> !l.finishing && next.finishing)
  {
  }

  function Ticks(gs: seq<Signal>): nat { if gs == [] then 0 else (if gs[0].Tick? then 1 else 0) + Ticks(gs[1..]) }

  lemma {:induction false} EndedStays(su: Suite, l: Loop, gs: seq<Signal>)
    requires !l.status.Running?
    ensures LoopRun(su, l, gs) == l && LoopSends(su, l, gs) == []
    decreases |gs|
  {
    if gs != [] { EndedStays(su, l, gs[1..]); }
  }

  // While the loop runs it has sent one frame for every tick, and one more, the finish, when it completed.
  lemma {:induction false} SendsExactly(su: Suite, l: Loop, gs: seq<Signal>)
    requires l.status.Running? && LoopRun(su, l, gs).status.Running?
    ensures |LoopSends(su, l, gs)| == Ticks(gs) + if !l.finishing && LoopRun(su, l, gs).finishing then 1 else 0
    ensures l.finishing ==> LoopRun(su, l, gs).finishing
    decreases |gs|
  {
    if gs != [] {
      var next := LoopStep(su, l, gs[0]).0;
      LoopExactly(su, l, gs[0]);
      if !next.status.Running? { EndedStays(su, next, gs[1..]); }
      SendsExactly(su, next, gs[1..]);
    }
  }

  // A key is returned only for the acknowledgement that the loop, finishing, was waiting for.
  lemma {:induction false} ReturnsOnly(su: Suite, l: Loop, gs: seq<Signal>) returns (i: nat)
    requires l.status.Running? && LoopRun(su, l, gs).status.Returned?
    ensures i < |gs|
    ensures var m := LoopRun(su, l, gs[..i]);
            && m.status.Running? && m.finishing && gs[i].Receive? && m.client.ack == Some(gs[i].reply)
            && LoopRun(su, l, gs).status.key == m.psk
    decreases |gs|
  {
    var next := LoopStep(su, l, gs[0]).0;
    LoopExactly(su, l, gs[0]);
    if next.status.Running? {
      var k := ReturnsOnly(su, next, gs[1..]);
      i := k + 1;
      assert gs[..i][0] == gs[0] && gs[..i][1..] == gs[1..][..k];
    } else {
      EndedStays(su, next, gs[1..]);
      i := 0;
    }
  }

  function Opt(f: Option<Bytes>): seq<Bytes> { if f.Some? then [f.value] else [] }

  // One signal more of a run.
  lemma {:induction false} SignalOn(su: Suite, l: Loop, gs: seq<Signal>, i: nat, sent: seq<Bytes>)
    requires i < |gs|
    ensures var (next, f) := LoopStep(su, l, gs[i]);
            && LoopRun(su, l, gs[i..]) == LoopRun(su, next, gs[i + 1..])
            && sent + LoopSends(su, l, gs[i..]) == sent + Opt(f) + LoopSends(su, next, gs[i + 1..])
  {
    assert gs[i..][1..] == gs[i + 1..];
  }

  // The select loop, over the signals it receives until it returns or they end.
  method Bootstrap(su: Suite, start: Loop, gs: seq<Signal>) returns (end: Loop, sent: seq<Bytes>)
    ensures end == LoopRun(su, start, gs)
    ensures sent == LoopSends(su, start, gs)
    ensures forall f :: f in sent ==> f == start.packet || f == end.packet
  {
    var client, packet, psk, finishing, status := start.client, start.packet, start.psk, start.finishing, start.status;
    sent := [];
    var i := 0;
    while i < |gs|
      invariant 0 <= i <= |gs|
      invariant LoopRun(su, start, gs) == LoopRun(su, Loop(client, packet, psk, finishing, status), gs[i..])
      invariant LoopSends(su, start, gs)
             == sent + LoopSends(su, Loop(client, packet, psk, finishing, status), gs[i..])
      invariant forall f :: f in sent ==> f == start.packet || f == packet
      invariant packet == start.packet || finishing
      invariant start.finishing ==> packet == start.packet && finishing
    {
      ghost var before, earlier := Loop(client, packet, psk, finishing, status), sent;
      if status.Running? {
        match gs[i] {
          case Cancel =>
            status := Stopped;
          case Tick(ok) =>
            sent := sent + [packet];
            if !ok { status := Stopped; }
          case Receive(reply, ok) =>
            if finishing {
              if client.ack == Some(reply) { status := Returned(psk); }
            } else {
              var (c, done) := Complete(su, client, reply);
              client := c;
              if done.Some? {
                psk := done.value.0;
                packet := done.value.1;
                finishing := true;
                sent := sent + [packet];
                if !ok { status := Stopped; }
              } else {
                psk := ZERO_KEY;
              }
            }
        }
      }
      SignalOn(su, before, gs, i, earlier);
      assert LoopStep(su, before, gs[i]).0 == Loop(client, packet, psk, finishing, status);
      assert sent == earlier + Opt(LoopStep(su, before, gs[i]).1);
      i := i + 1;
    }
    end := Loop(client, packet, psk, finishing, status);
    assert gs[i..] == [];
  }
}
