/** The bootstrap frame: header, exact sizes per message type, and the canonical transcript. */
module Wire {
  import opened Bytes

  const VERSION: byte := 1
  const MAX_PACKET := 32768

  const CLIENT_HELLO: byte := 1
  const SERVER_HELLO: byte := 2
  const CLIENT_FINISH: byte := 3
  const SERVER_ACCEPTED: byte := 4

  const HASH_SIZE := 48
  const PROOF_SIZE := 48
  const KEM_KEY_SIZE := 1568
  const CIPHERTEXT_SIZE := 1568
  const SIGNATURE_SIZE := 4627
  const PUBLIC_KEY_SIZE := 2592
  const HELLO_SIZE := 32 * 6 + 8 + KEM_KEY_SIZE
  const SERVER_SIZE := 32 * 4 + CIPHERTEXT_SIZE + SIGNATURE_SIZE + PROOF_SIZE

  type KemKey = b: Bytes | |b| == KEM_KEY_SIZE witness Zeros(1568)
  type Ciphertext = b: Bytes | |b| == CIPHERTEXT_SIZE witness Zeros(1568)
  type Signature = b: Bytes | |b| == SIGNATURE_SIZE witness Zeros(4627)

  // A node's WireGuard and discovery public keys.
  datatype Keys = Keys(wg: Key, disco: Key)

  function Frame(kind: byte, payload: Bytes): (b: Bytes)
    ensures |b| == 8 + |payload|
    ensures b[5] == kind && b[8..] == payload
  {
    Ascii("QCAT") + [VERSION, kind] + BigEndian(|payload|, 2) + payload
  }

  function PayloadSize(kind: byte): Option<nat> {
    if kind == CLIENT_HELLO then Some(HELLO_SIZE + SIGNATURE_SIZE)
    else if kind == SERVER_HELLO then Some(SERVER_SIZE)
    else if kind == CLIENT_FINISH || kind == SERVER_ACCEPTED then Some(HASH_SIZE + PROOF_SIZE)
    else None
  }

  predicate ValidFrame(b: Bytes) {
    && 8 <= |b| <= MAX_PACKET
    && b[..4] == Ascii("QCAT")
    && b[4] == VERSION
    && Unsigned(b[6..8]) == |b| - 8
    && PayloadSize(b[5]) == Some(|b| - 8)
  }

  function Parse(b: Bytes): Option<(byte, Bytes)> {
    if ValidFrame(b) then Some((b[5], b[8..])) else None
  }

  // What a valid frame is, byte by byte: a ClientHello carries 6395 bytes, a ServerHello 6371, the two finishes 96.
  lemma {:induction false} ParsesExactly(b: Bytes)
    ensures Parse(b).Some? <==>
              && 8 <= |b| && b[..4] == Ascii("QCAT") && b[4] == 1 && b[6] as int * 256 + b[7] as int == |b| - 8
              && ((b[5] == 1 && |b| == 8 + 6395) || (b[5] == 2 && |b| == 8 + 6371)
                  || ((b[5] == 3 || b[5] == 4) && |b| == 8 + 96))
    ensures Parse(b).Some? ==> Parse(b) == Some((b[5], b[8..]))
  {
    if |b| >= 8 {
      assert b[6..8] == [b[6], b[7]];
      assert [b[6], b[7]][..1] == [b[6]];
      assert Unsigned([b[6]]) == b[6] as int;
    }
  }

  // A frame that parses is the frame of what was parsed from it, and a framed payload parses back
  // exactly when it has its type's size.
  lemma {:induction false} FrameOfParse(b: Bytes)
    requires Parse(b).Some?
    ensures Frame(Parse(b).value.0, Parse(b).value.1) == b
    ensures PayloadSize(Parse(b).value.0) == Some(|Parse(b).value.1|)
  {
    var len := b[6..8];
    BigEndianUnsigned(len);
    assert b == b[..4] + [b[4], b[5]] + len + b[8..];
  }

  lemma {:induction false} ParseOfFrame(kind: byte, payload: Bytes)
    ensures Parse(Frame(kind, payload)) ==
            if PayloadSize(kind) == Some(|payload|) then Some((kind, payload)) else None
  {
    var b := Frame(kind, payload);
    assert b[..4] == Ascii("QCAT");
    assert b[6..8] == BigEndian(|payload|, 2);
    Pow256Values();
    if |payload| < 0x1_0000 {
      UnsignedBigEndian(|payload|, 2);
    }
  }

  /* The unsigned ClientHello: fields in wire order. */
  function HelloBody(tag: Key, local: Keys, nonce: Key, server: Key, stamp: Bytes, kem: KemKey): (b: Bytes)
    requires |stamp| == 8
    ensures |b| == HELLO_SIZE
  {
    tag + local.wg + local.disco + nonce + server + ZERO_KEY + stamp + kem
  }

  function Tag(hello: Bytes): Key requires |hello| >= HELLO_SIZE { hello[..32] }
  function HelloKeys(hello: Bytes): Keys requires |hello| >= HELLO_SIZE { Keys(hello[32..64], hello[64..96]) }
  function HelloNonce(hello: Bytes): Key requires |hello| >= HELLO_SIZE { hello[96..128] }
  function HelloServer(hello: Bytes): Key requires |hello| >= HELLO_SIZE { hello[128..160] }
  function HelloReserved(hello: Bytes): Key requires |hello| >= HELLO_SIZE { hello[160..192] }
  function HelloStamp(hello: Bytes): int requires |hello| >= HELLO_SIZE { AsInt64(Unsigned(hello[192..200])) }
  function HelloKem(hello: Bytes): KemKey requires |hello| >= HELLO_SIZE { hello[200..HELLO_SIZE] }

  // Every field is read back from the offsets the server slices.
  lemma {:induction false} HelloFields(tag: Key, local: Keys, nonce: Key, server: Key, stamp: Bytes, kem: KemKey,
                                       rest: Bytes)
    requires |stamp| == 8
    ensures var b := HelloBody(tag, local, nonce, server, stamp, kem) + rest;
            && Tag(b) == tag && HelloKeys(b) == local && HelloNonce(b) == nonce && HelloServer(b) == server
            && HelloReserved(b) == ZERO_KEY && b[192..200] == stamp && HelloKem(b) == kem
  {
    var h := HelloBody(tag, local, nonce, server, stamp, kem);
    var b := h + rest;
    assert b[..32] == tag;
    assert b[32..64] == local.wg;
    assert b[64..96] == local.disco;
    assert b[96..128] == nonce;
    assert b[128..160] == server;
    assert b[160..192] == ZERO_KEY;
    assert b[192..200] == stamp;
    assert b[200..HELLO_SIZE] == kem;
  }

  /* The canonical transcript bytes, which the server signs and both sides hash. */
  function Transcript(hello: Bytes, server: Key, keys: Keys, nonce: Key, ct: Ciphertext): (b: Bytes)
    ensures |b| == 18 + 1 + 32 * 4 + CIPHERTEXT_SIZE + |hello|
  {
    Ascii("qcat-transcript-v1") + [VERSION] + server + keys.wg + keys.disco + nonce + ct + hello
  }

  lemma {:induction false} TranscriptFields(hello: Bytes, server: Key, keys: Keys, nonce: Key, ct: Ciphertext)
    ensures var b := Transcript(hello, server, keys, nonce, ct);
            && b[..19] == Ascii("qcat-transcript-v1") + [1] && b[19..51] == server && b[51..83] == keys.wg
            && b[83..115] == keys.disco
            && b[115..147] == nonce && b[147..1715] == ct && b[1715..] == hello
  {
    var b := Transcript(hello, server, keys, nonce, ct);
    assert b[..19] == Ascii("qcat-transcript-v1") + [1];
    assert b[19..51] == server;
    assert b[51..83] == keys.wg;
    assert b[83..115] == keys.disco;
    assert b[115..147] == nonce;
    assert b[147..1715] == ct;
    assert b[1715..] == hello;
  }

  // Equal transcript bytes come from equal parts.
  lemma {:induction false} TranscriptInjective(h1: Bytes, s1: Key, k1: Keys, n1: Key, c1: Ciphertext,
                            h2: Bytes, s2: Key, k2: Keys, n2: Key, c2: Ciphertext)
    requires Transcript(h1, s1, k1, n1, c1) == Transcript(h2, s2, k2, n2, c2)
    ensures h1 == h2 && s1 == s2 && k1 == k2 && n1 == n2 && c1 == c2
  {
    TranscriptFields(h1, s1, k1, n1, c1);
    TranscriptFields(h2, s2, k2, n2, c2);
  }

  /* ServerHello: identity, transport keys, nonce, ciphertext, signature, key confirmation. */
  function ServerBody(server: Key, keys: Keys, nonce: Key, ct: Ciphertext, sig: Signature, proof: Hash): (b: Bytes)
    ensures |b| == SERVER_SIZE
  {
    server + keys.wg + keys.disco + nonce + ct + sig + proof
  }

  lemma {:induction false} ServerFields(server: Key, keys: Keys, nonce: Key, ct: Ciphertext, sig: Signature,
                                        proof: Hash)
    ensures var b := ServerBody(server, keys, nonce, ct, sig, proof);
            && b[..32] == server && b[32..64] == keys.wg && b[64..96] == keys.disco && b[96..128] == nonce
            && b[128..128 + CIPHERTEXT_SIZE] == ct
            && b[128 + CIPHERTEXT_SIZE..|b| - PROOF_SIZE] == sig && b[|b| - PROOF_SIZE..] == proof
  {
    var b := ServerBody(server, keys, nonce, ct, sig, proof);
    assert b[..32] == server;
    assert b[32..64] == keys.wg;
    assert b[64..96] == keys.disco;
    assert b[96..128] == nonce;
    assert b[128..128 + CIPHERTEXT_SIZE] == ct;
    assert b[128 + CIPHERTEXT_SIZE..|b| - PROOF_SIZE] == sig;
    assert b[|b| - PROOF_SIZE..] == proof;
  }

  // Every body of that size is the one of its own fields.
  lemma {:induction false} BodyOfFields(b: Bytes)
    requires |b| == SERVER_SIZE
    ensures b == ServerBody(b[..32], Keys(b[32..64], b[64..96]), b[96..128], b[128..128 + CIPHERTEXT_SIZE],
                            b[128 + CIPHERTEXT_SIZE..|b| - PROOF_SIZE], b[|b| - PROOF_SIZE..])
  {
  }
}
