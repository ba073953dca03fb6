/** The primitives the handshake calls, as parameters, and the key schedule built from them.
    Facts about a primitive are hypotheses of the lemmas that need them, never axioms. */
module Crypto {
  import opened Bytes
  import opened Wire

  datatype Suite = Suite(
    sha384: Bytes -> Hash,
    sha512t256: Bytes -> Key,
    hmac: (Bytes, Bytes) -> Hash,                      // key, message (RFC 2104, SHA-384)
    extract: (Bytes, Bytes) -> Bytes,                  // input keying material, salt (RFC 5869)
    expand: (Bytes, Bytes) -> Key,                     // pseudorandom key, info; 32 bytes out
    sign: (Bytes, Bytes, Bytes) -> Signature,          // secret key, context, message (FIPS 204)
    verifies: (Bytes, Bytes, Bytes, Bytes) -> bool,    // public key, context, message, signature
    signer: Bytes -> Bytes,                            // public key of a signing secret
    kemValid: Bytes -> bool,                           // FIPS 203 encapsulation key check
    encaps: (KemKey, Bytes) -> (Bytes, Ciphertext),    // encapsulation key, coins
    decaps: (Bytes, Ciphertext) -> Bytes,              // decapsulation key, ciphertext
    kemPublic: Bytes -> KemKey)                        // encapsulation key of a decapsulation key

  function ID(su: Suite, pub: Bytes): Key {
    su.sha512t256(Ascii("qcat-peer-v1") + pub)
  }

  function PeerTag(su: Suite, id: Key, nonce: Key): Key {
    su.hmac(nonce, Ascii("qcat-peer-tag-v1") + id)[..32]
  }

  function Prk(su: Suite, ss: Bytes): Bytes {
    su.extract(ss, Ascii("qcat-handshake-extract-v1"))
  }

  function PskOf(su: Suite, ss: Bytes, hash: Hash): Key {
    su.expand(Prk(su, ss), Ascii("qcat-wireguard-psk-v3") + hash)
  }

  function ConfirmKey(su: Suite, ss: Bytes, hash: Hash): Key {
    su.expand(Prk(su, ss), Ascii("qcat-handshake-confirm-v3") + hash)
  }

  function Proof(su: Suite, k: Key, purpose: string, hash: Hash): Hash {
    su.hmac(k, Ascii(purpose) + hash)
  }

  function Ack(su: Suite, hk: Key, hash: Hash): Bytes {
    Frame(SERVER_ACCEPTED, hash + Proof(su, hk, "server-accepted", hash))
  }

  function Finish(su: Suite, hk: Key, hash: Hash): Bytes {
    Frame(CLIENT_FINISH, hash + Proof(su, hk, "client-finished", hash))
  }

  const CLIENT_CONTEXT := "qcat-handshake-client-v1"
  const SERVER_CONTEXT := "qcat-handshake-server-v1"

  predicate Verify(su: Suite, pub: Bytes, purpose: string, msg: Bytes, sig: Bytes) {
    && |pub| == PUBLIC_KEY_SIZE && |sig| == SIGNATURE_SIZE
    && su.verifies(pub, Ascii(purpose), msg, sig)
  }

  // Decapsulation inverts this encapsulation.
  predicate KemInverts(su: Suite, dk: Bytes, coins: Bytes) {
    su.decaps(dk, su.encaps(su.kemPublic(dk), coins).1) == su.encaps(su.kemPublic(dk), coins).0
  }

  // A signature made with a secret verifies under its public key.
  ghost predicate SignatureCorrect(su: Suite, secret: Bytes) {
    && |su.signer(secret)| == PUBLIC_KEY_SIZE
    && forall purpose: Bytes, msg: Bytes :: su.verifies(su.signer(secret), purpose, msg, su.sign(secret, purpose, msg))
  }

  /* What keys, proofs and names are bound to, where the primitives do not collide on the values compared */

  // The salt and labels, as the two derivations use them.
  function Extracted(su: Suite, ss: Bytes): Bytes { su.extract(ss, Ascii("qcat-handshake-extract-v1")) }
  function PskInfo(hash: Hash): Bytes { Ascii("qcat-wireguard-psk-v3") + hash }
  function ConfirmInfo(hash: Hash): Bytes { Ascii("qcat-handshake-confirm-v3") + hash }

  // HKDF does not collide on these two expansions.
  predicate ExpandsApart(su: Suite, a: Bytes, x: Bytes, b: Bytes, y: Bytes) {
    && (Extracted(su, a) == Extracted(su, b) ==> a == b)
    && (su.expand(Extracted(su, a), x) == su.expand(Extracted(su, b), y) ==>
          Extracted(su, a) == Extracted(su, b) && x == y)
  }

  // A PSK and a confirmation key each stand for one secret and one transcript, and are never the same key.
  lemma {:induction false} KeysBind(su: Suite, a: Bytes, g: Hash, b: Bytes, h: Hash)
    ensures PskOf(su, a, g) == su.expand(Extracted(su, a), PskInfo(g))
    ensures ConfirmKey(su, a, g) == su.expand(Extracted(su, a), ConfirmInfo(g))
    ensures ExpandsApart(su, a, PskInfo(g), b, PskInfo(h)) ==>
              (PskOf(su, a, g) == PskOf(su, b, h) <==> a == b && g == h)
    ensures ExpandsApart(su, a, ConfirmInfo(g), b, ConfirmInfo(h)) ==>
              (ConfirmKey(su, a, g) == ConfirmKey(su, b, h) <==> a == b && g == h)
    ensures ExpandsApart(su, a, PskInfo(g), b, ConfirmInfo(h)) ==> PskOf(su, a, g) != ConfirmKey(su, b, h)
  {
    assert PskInfo(g)[21..] == g && PskInfo(h)[21..] == h;
    assert ConfirmInfo(g)[25..] == g && ConfirmInfo(h)[25..] == h;
    assert |PskInfo(g)| == 69 && |ConfirmInfo(h)| == 73;
  }

  // The three purposes a proof can have.
  predicate IsPurpose(p: string) { p == "server-finished" || p == "client-finished" || p == "server-accepted" }

  lemma {:induction false} PurposesDiffer(p: string, q: string)
    requires IsPurpose(p) && IsPurpose(q) && Ascii(p) == Ascii(q)
    ensures p == q
  {
    assert Ascii(p)[0] == Ascii(q)[0] && Ascii(p)[7] == Ascii(q)[7];
  }

  // A proof stands for one key, one purpose and one transcript.
  lemma {:induction false} ProofsBind(su: Suite, k: Key, p: string, g: Hash, l: Key, q: string, h: Hash)
    requires IsPurpose(p) && IsPurpose(q)
    requires su.hmac(k, Ascii(p) + g) == su.hmac(l, Ascii(q) + h) ==> k == l && Ascii(p) + g == Ascii(q) + h
    ensures Proof(su, k, p, g) == Proof(su, l, q, h) <==> k == l && p == q && g == h
  {
    if k == l && Ascii(p) + g == Ascii(q) + h {
      assert (Ascii(p) + g)[..15] == Ascii(p) && (Ascii(q) + h)[..15] == Ascii(q);
      assert (Ascii(p) + g)[15..] == g && (Ascii(q) + h)[15..] == h;
      PurposesDiffer(p, q);
    }
  }

  // A PeerID stands for one public key, and a tag under a nonce for one PeerID.
  lemma {:induction false} NamesBind(su: Suite, p: Bytes, q: Bytes, id: Key, other: Key, nonce: Key)
    requires su.sha512t256(Ascii("qcat-peer-v1") + p) == su.sha512t256(Ascii("qcat-peer-v1") + q) ==>
               Ascii("qcat-peer-v1") + p == Ascii("qcat-peer-v1") + q
    requires var d := Ascii("qcat-peer-tag-v1");
             su.hmac(nonce, d + id)[..32] == su.hmac(nonce, d + other)[..32] ==> d + id == d + other
    ensures ID(su, p) == ID(su, q) <==> p == q
    ensures PeerTag(su, id, nonce) == PeerTag(su, other, nonce) <==> id == other
  {
    assert (Ascii("qcat-peer-v1") + p)[12..] == p && (Ascii("qcat-peer-v1") + q)[12..] == q;
    assert (Ascii("qcat-peer-tag-v1") + id)[16..] == id && (Ascii("qcat-peer-tag-v1") + other)[16..] == other;
  }
}
