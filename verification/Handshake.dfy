/** The byte level of the bootstrap server: what each packet means to Machine. */
module Handshake {
  import opened Bytes
  import opened Wire
  import opened Crypto
  import opened Machine

  // The server's own identity and transport keys.
  datatype Config = Config(suite: Suite, secret: Bytes, public: Bytes, keys: Keys) {
    function Id(): Key { ID(suite, public) }
  }

  // The authorized peers in the order one enumeration yields them.
  type Auth = seq<(Key, Bytes)>

  // What a call draws from outside: KEM coins, the nonce, and whether randomness, derivation and signing succeed.
  datatype Draw = Draw(coins: Bytes, nonce: Key, ok: bool)

  datatype Delivery = Delivery(source: Key, packet: Bytes, now: int, auth: Auth, draw: Draw, choice: Choice)

  function Lookup(auth: Auth, id: Key): Bytes {
    if auth == [] then [] else if auth[0].0 == id then auth[0].1 else Lookup(auth[1..], id)
  }

  function Resolve(su: Suite, auth: Auth, tag: Key, nonce: Key): Option<(Key, Bytes)> {
    if auth == [] then None
    else if PeerTag(su, auth[0].0, nonce) == tag then Some(auth[0])
    else Resolve(su, auth[1..], tag, nonce)
  }

  // The identity a hello's tag selects, with a key that hashes to it.
  function Identify(su: Suite, auth: Auth, tag: Key, nonce: Key): Option<(Key, Bytes)> {
    match Resolve(su, auth, tag, nonce)
    case None => None
    case Some((id, pub)) => if pub == [] || ID(su, pub) != id then None else Some((id, pub))
  }

  /* The server's answer to a hello */

  function Encapsulated(cfg: Config, hello: Bytes, draw: Draw): (Bytes, Ciphertext)
    requires |hello| == HELLO_SIZE
  {
    cfg.suite.encaps(HelloKem(hello), draw.coins)
  }

  function OfferBytes(cfg: Config, hello: Bytes, draw: Draw): Bytes
    requires |hello| == HELLO_SIZE
  {
    Transcript(hello, cfg.Id(), cfg.keys, draw.nonce, Encapsulated(cfg, hello, draw).1)
  }

  function OfferFrame(cfg: Config, draw: Draw, ct: Ciphertext, tb: Bytes, hash: Hash, hk: Key): Bytes {
    Frame(SERVER_HELLO,
          ServerBody(cfg.Id(), cfg.keys, draw.nonce, ct, cfg.suite.sign(cfg.secret, Ascii(SERVER_CONTEXT), tb),
                     Proof(cfg.suite, hk, "server-finished", hash)))
  }

  function MakeOffer(cfg: Config, hello: Bytes, draw: Draw): Offer
    requires |hello| == HELLO_SIZE
  {
    var su := cfg.suite;
    var (ss, ct) := Encapsulated(cfg, hello, draw);
    var tb := OfferBytes(cfg, hello, draw);
    var hash := su.sha384(tb);
    var hk := ConfirmKey(su, ss, hash);
    Offer(hash, PskOf(su, ss, hash), hk, OfferFrame(cfg, draw, ct, tb, hash, hk))
  }

  function ReplayKey(su: Suite, id: Key, nonce: Key): Hash { su.sha384(id + nonce) }

  predicate SoundFields(cfg: Config, source: Key, b: Bytes)
    requires |b| >= HELLO_SIZE
  {
    && source == HelloKeys(b).wg && HelloKeys(b).disco != ZERO_KEY
    && HelloServer(b) == cfg.Id() && HelloReserved(b) == ZERO_KEY
  }

  function ReadHello(cfg: Config, d: Delivery, b: Bytes): Message
    requires |b| == HELLO_SIZE + SIGNATURE_SIZE
  {
    var su := cfg.suite;
    var hello := b[..HELLO_SIZE];
    var who := Identify(su, d.auth, Tag(b), HelloNonce(b));
    var id := if who.Some? then who.value.0 else ZERO_KEY;
    Hello(SoundFields(cfg, d.source, b), HelloStamp(b),
          if who.Some? then Some(id) else None,
          ReplayKey(su, id, HelloNonce(b)), su.sha384(d.packet),
          who.Some? && Verify(su, who.value.1, CLIENT_CONTEXT, Frame(CLIENT_HELLO, hello), b[HELLO_SIZE..]),
          HelloKeys(b), su.kemValid(HelloKem(hello)),
          if d.draw.ok then Some(MakeOffer(cfg, hello, d.draw)) else None)
  }

  function ReadFinish(su: Suite, auth: Auth, b: Bytes): Message
    requires |b| == HASH_SIZE + PROOF_SIZE
  {
    var h: Hash := b[..HASH_SIZE];
    Finish(h, (hk: Key) => Proof(su, hk, "client-finished", h) == b[HASH_SIZE..], (id: Key) => Lookup(auth, id) != [])
  }

  function Interpret(cfg: Config, d: Delivery): Message {
    match Parse(d.packet)
    case None => Malformed
    case Some((kind, b)) =>
      if kind == CLIENT_FINISH then ReadFinish(cfg.suite, d.auth, b)
      else if kind == CLIENT_HELLO then ReadHello(cfg, d, b)
      else Foreign
  }

  function EventOf(cfg: Config, d: Delivery): Event {
    Machine.Handle(d.source, d.now, Interpret(cfg, d), d.choice)
  }

  function ReplyBytes(su: Suite, r: Reply): Option<Bytes> {
    match r
    case Silence => None
    case Respond(frame) => Some(frame)
    case Acknowledge(hash, hk) => Some(Ack(su, hk, hash))
  }

  /* Reading a message back */

  // The unsigned hello inside a ClientHello packet.
  predicate IsHello(packet: Bytes) { ValidFrame(packet) && packet[5] == CLIENT_HELLO }

  function HelloIn(packet: Bytes): (hello: Bytes)
    requires IsHello(packet)
    ensures |hello| == HELLO_SIZE
  {
    packet[8..8 + HELLO_SIZE]
  }

  lemma {:induction false} ResolveSound(su: Suite, auth: Auth, tag: Key, nonce: Key)
    requires Resolve(su, auth, tag, nonce).Some?
    ensures var (id, pub) := Resolve(su, auth, tag, nonce).value;
            (id, pub) in auth && PeerTag(su, id, nonce) == tag
  {
    if PeerTag(su, auth[0].0, nonce) != tag {
      ResolveSound(su, auth[1..], tag, nonce);
    }
  }

  // The key an entry of the authorization set gives for id verified this hello's signature.
  ghost predicate SignedUnder(su: Suite, auth: Auth, packet: Bytes, id: Key, pub: Bytes) {
    && (id, pub) in auth && ID(su, pub) == id && IsHello(packet) && |pub| == 2592 && |packet| == 8 + HELLO_SIZE + 4627
    && su.verifies(pub, Ascii("qcat-handshake-client-v1"), Frame(1, HelloIn(packet)), packet[8 + HELLO_SIZE..])
  }

  // What a decoded hello says about its packet.
  lemma {:induction false} HelloMeans(cfg: Config, d: Delivery)
    requires Interpret(cfg, d).Hello?
    ensures IsHello(d.packet)
    ensures var m, hello := Interpret(cfg, d), HelloIn(d.packet);
            && m.stamp == HelloStamp(hello) && m.keys == HelloKeys(hello)
            && (m.sound ==> d.source == m.keys.wg)
            && (m.offer.Some? ==> m.offer.value == MakeOffer(cfg, hello, d.draw))
            && (m.peer.Some? ==>
                  && PeerTag(cfg.suite, m.peer.value, HelloNonce(hello)) == Tag(hello)
                  && m.replay == ReplayKey(cfg.suite, m.peer.value, HelloNonce(hello))
                  && exists pub :: (m.peer.value, pub) in d.auth
                                   && (m.signed ==> SignedUnder(cfg.suite, d.auth, d.packet, m.peer.value, pub)))
  {
    var b := d.packet[8..];
    var hello := HelloIn(d.packet);
    assert hello == b[..HELLO_SIZE];
    SameSlices(b);
    assert b[HELLO_SIZE..] == d.packet[8 + HELLO_SIZE..];
    if Resolve(cfg.suite, d.auth, Tag(b), HelloNonce(b)).Some? {
      ResolveSound(cfg.suite, d.auth, Tag(b), HelloNonce(b));
    }
  }

  // Reading a field through the signed or the unsigned hello is the same.
  lemma {:induction false} SameSlices(b: Bytes)
    requires |b| >= HELLO_SIZE
    ensures var h := b[..HELLO_SIZE];
            && Tag(h) == Tag(b) && HelloKeys(h) == HelloKeys(b) && HelloNonce(h) == HelloNonce(b)
            && HelloServer(h) == HelloServer(b) && HelloStamp(h) == HelloStamp(b) && HelloKem(h) == HelloKem(b)
  {
    var h := b[..HELLO_SIZE];
    assert h[..32] == b[..32];
    assert h[32..64] == b[32..64];
    assert h[64..96] == b[64..96];
    assert h[96..128] == b[96..128];
    assert h[128..160] == b[128..160];
    assert h[192..200] == b[192..200];
    assert h[200..HELLO_SIZE] == b[200..HELLO_SIZE];
  }

  // No two of these identities share a tag under this nonce.
  ghost predicate TagsDistinct(su: Suite, ids: set<Key>, nonce: Key) {
    forall a, b :: a in ids && b in ids && PeerTag(su, a, nonce) == PeerTag(su, b, nonce) ==> a == b
  }

  ghost function Ids(auth: Auth): set<Key> { set x | x in auth :: x.0 }

  /* What a packet means, byte by byte */

  // Which packets are which messages.
  lemma {:induction false} KindsExactly(cfg: Config, d: Delivery)
    ensures Interpret(cfg, d).Malformed? <==> Parse(d.packet).None?
    ensures Interpret(cfg, d).Hello? <==> Parse(d.packet).Some? && d.packet[5] == 1
    ensures Interpret(cfg, d).Finish? <==> Parse(d.packet).Some? && d.packet[5] == 3
  {
  }

  // The first entry for an identity decides its key; there is none exactly for an identity not listed or listed
  // with an empty key.
  lemma {:induction false} LooksUpFirst(auth: Auth, id: Key, i: nat)
    requires i <= |auth| && (forall j :: 0 <= j < i ==> auth[j].0 != id) && (i < |auth| ==> auth[i].0 == id)
    ensures Lookup(auth, id) == if i < |auth| then auth[i].1 else []
  {
    if i > 0 { LooksUpFirst(auth[1..], id, i - 1); }
  }

  // The first identity whose tag under the nonce is the hello's, if it comes with a key that hashes to it.
  lemma {:induction false} ResolvesFirst(su: Suite, auth: Auth, tag: Key, nonce: Key, i: nat)
    requires i <= |auth| && forall j :: 0 <= j < i ==> PeerTag(su, auth[j].0, nonce) != tag
    requires i < |auth| ==> PeerTag(su, auth[i].0, nonce) == tag
    ensures Identify(su, auth, tag, nonce) ==
            if i < |auth| && auth[i].1 != [] && ID(su, auth[i].1) == auth[i].0 then Some(auth[i]) else None
  {
    if i > 0 { ResolvesFirst(su, auth[1..], tag, nonce, i - 1); }
  }

  // The fields of handshake.go:307 and :310, the digest, and the KEM key of a hello.
  lemma {:induction false} FieldsExactly(cfg: Config, d: Delivery)
    requires Interpret(cfg, d).Hello?
    ensures |d.packet| == 8 + 6395
    ensures var m, b := Interpret(cfg, d), d.packet[8..];
            && (m.sound <==>
                  && d.source == b[32..64] && b[64..96] != Zeros(32)
                  && b[128..160] == ID(cfg.suite, cfg.public) && b[160..192] == Zeros(32))
            && m.stamp == AsInt64(Unsigned(b[192..200])) && m.keys == Keys(b[32..64], b[64..96])
            && m.digest == cfg.suite.sha384(d.packet) && m.kemValid == cfg.suite.kemValid(b[200..1768])
  {
    assert d.packet[8..][..HELLO_SIZE][200..HELLO_SIZE] == d.packet[8..][200..1768];
  }

  // Whose hello it is, and whether that identity's key verifies it.
  lemma {:induction false} SignerExactly(cfg: Config, d: Delivery)
    requires Interpret(cfg, d).Hello?
    ensures |d.packet| == 8 + 6395
    ensures var m, b, su := Interpret(cfg, d), d.packet[8..], cfg.suite;
            var who := Identify(su, d.auth, b[..32], b[96..128]);
            && m.peer == (if who.Some? then Some(who.value.0) else None)
            && (m.peer.Some? ==> m.replay == su.sha384(who.value.0 + b[96..128]))
            && (m.signed <==>
                  && who.Some? && |who.value.1| == 2592
                  && su.verifies(who.value.1, Ascii("qcat-handshake-client-v1"), Frame(1, b[..1768]), b[1768..]))
  {
  }

  // The offer, written out: keys from the encapsulated secret, a ServerHello signed over the transcript, and the
  // proof that the server has the confirmation key.
  lemma {:induction false} OffersExactly(cfg: Config, d: Delivery)
    requires Interpret(cfg, d).Hello?
    ensures |d.packet| == 8 + 6395
    ensures Interpret(cfg, d).offer.Some? <==> d.draw.ok
    ensures d.draw.ok ==>
              var su, hello, id, n := cfg.suite, d.packet[8..][..1768], ID(cfg.suite, cfg.public), d.draw.nonce;
              var (ss, ct) := su.encaps(hello[200..1768], d.draw.coins);
              var tb := Transcript(hello, id, cfg.keys, n, ct);
              var h, prk := su.sha384(tb), su.extract(ss, Ascii("qcat-handshake-extract-v1"));
              var hk := su.expand(prk, Ascii("qcat-handshake-confirm-v3") + h);
              var sig := su.sign(cfg.secret, Ascii("qcat-handshake-server-v1"), tb);
              Interpret(cfg, d).offer.value ==
              Offer(h, su.expand(prk, Ascii("qcat-wireguard-psk-v3") + h), hk,
                    Frame(2, ServerBody(id, cfg.keys, n, ct, sig, su.hmac(hk, Ascii("server-finished") + h))))
  {
  }

  // A finish names the hash in its first 48 bytes; it proves exactly the keys whose proof is the other 48, and
  // knows exactly the identities authorized when it arrives.
  lemma {:induction false} FinishesExactly(cfg: Config, d: Delivery)
    requires Interpret(cfg, d).Finish?
    ensures |d.packet| == 8 + 96
    ensures var m, b := Interpret(cfg, d), d.packet[8..];
            && m.hash == b[..48]
            && (forall k: Key :: m.proves(k) <==> cfg.suite.hmac(k, Ascii("client-finished") + b[..48]) == b[48..])
            && (forall id: Key :: m.known(id) <==> Lookup(d.auth, id) != [])
  {
  }

  // A replay key stands for one identity and nonce, where SHA-384 does not collide on the two.
  lemma {:induction false} ReplayKeysBind(su: Suite, a: Key, m: Key, b: Key, n: Key)
    requires su.sha384(a + m) == su.sha384(b + n) ==> a + m == b + n
    ensures ReplayKey(su, a, m) == ReplayKey(su, b, n) <==> a == b && m == n
  {
    assert (a + m)[..32] == a && (a + m)[32..] == m;
    assert (b + n)[..32] == b && (b + n)[32..] == n;
  }
}
