/** UDP datagrams over a smaller path: splitting into numbered fragments and putting them together again. */
module Fragments {
  import opened Bytes
  import opened Bucket

  const MAX_DATAGRAM := 65507
  const FRAME_LIMIT := 1072
  const HEADER := 16
  const CHUNK := 1056
  const MAX_ASSEMBLIES := 8
  const SLOTS := 64
  const LIFETIME := 2 * SECOND
  const ID_SPACE := 0x1_0000_0000_0000_0000

  /* One fragment */

  datatype Fragment = Fragment(id: nat, size: nat, index: nat, chunk: Bytes)

  // Fragments of a datagram of this size; an empty datagram still takes one.
  function Count(size: nat): nat { if size == 0 then 1 else (size + CHUNK - 1) / CHUNK }

  function ChunkSize(size: nat, index: nat): nat
    requires index < Count(size)
  {
    if index * CHUNK + CHUNK <= size then CHUNK else size - index * CHUNK
  }

  function Slice(data: Bytes, index: nat): (chunk: Bytes)
    requires index < Count(|data|)
    ensures |chunk| == ChunkSize(|data|, index) <= CHUNK
  {
    data[index * CHUNK..index * CHUNK + ChunkSize(|data|, index)]
  }

  function FragmentOf(id: nat, data: Bytes, index: nat): Fragment
    requires index < Count(|data|)
  {
    Fragment(id, |data|, index, Slice(data, index))
  }

  function Encode(f: Fragment): Bytes {
    Ascii("QUD1") + BigEndian(f.id, 8) + BigEndian(f.size, 2) + BigEndian(f.index, 2) + f.chunk
  }

  predicate Proper(f: Fragment) {
    && f.id < ID_SPACE && f.size <= MAX_DATAGRAM && f.index < Count(f.size) && |f.chunk| == ChunkSize(f.size, f.index)
  }

  // What the receiver reads from a frame, None when it is dropped.
  function Decode(b: Bytes): Option<Fragment> {
    if |b| < HEADER || |b| > FRAME_LIMIT || b[..4] != Ascii("QUD1") then None else
    var f := Fragment(Unsigned(b[4..12]), Unsigned(b[12..14]), Unsigned(b[14..16]), b[HEADER..]);
    if f.size > MAX_DATAGRAM || f.index >= Count(f.size) || |b| != HEADER + ChunkSize(f.size, f.index) then None
    else Some(f)
  }

  // The codec is exact: a frame decodes to the proper fragment it encodes, and to nothing else.
  lemma {:induction false} DecodeOfEncode(f: Fragment)
    requires Proper(f)
    ensures Decode(Encode(f)) == Some(f)
  {
    var b := Encode(f);
    assert b[..4] == Ascii("QUD1");
    assert b[4..12] == BigEndian(f.id, 8);
    assert b[12..14] == BigEndian(f.size, 2);
    assert b[14..16] == BigEndian(f.index, 2);
    assert b[HEADER..] == f.chunk;
    Pow256Values();
    UnsignedBigEndian(f.id, 8);
    UnsignedBigEndian(f.size, 2);
    UnsignedBigEndian(f.index, 2);
  }

  lemma {:induction false} EncodeOfDecode(b: Bytes)
    requires Decode(b).Some?
    ensures Proper(Decode(b).value) && Encode(Decode(b).value) == b
  {
    Pow256Values();
    BigEndianUnsigned(b[4..12]);
    BigEndianUnsigned(b[12..14]);
    BigEndianUnsigned(b[14..16]);
    assert b == b[..4] + b[4..12] + b[12..14] + b[14..16] + b[HEADER..];
  }

  // The layout of a frame, byte by byte.
  lemma {:induction false} EncodesExactly(f: Fragment)
    ensures var b := Encode(f);
            && |b| == 16 + |f.chunk| && b[..4] == Ascii("QUD1") && b[4..12] == BigEndian(f.id, 8)
            && b[12..14] == BigEndian(f.size, 2) && b[14..16] == BigEndian(f.index, 2) && b[16..] == f.chunk
  {
    var b := Encode(f);
    assert b[..4] == Ascii("QUD1");
    assert b[4..12] == BigEndian(f.id, 8);
    assert b[12..14] == BigEndian(f.size, 2);
    assert b[14..16] == BigEndian(f.index, 2);
    assert b[16..] == f.chunk;
  }

  // A datagram is cut into as few pieces of 1056 bytes as hold it, at least one.
  lemma {:induction false} CutsExactly(id: nat, data: Bytes, index: nat)
    requires index < Count(|data|)
    ensures 1 <= Count(|data|) && |data| <= 1056 * Count(|data|) && (|data| > 0 ==> 1056 * (Count(|data|) - 1) < |data|)
    ensures |data| == 0 ==> Count(|data|) == 1
    ensures 1056 * index <= |data|
    ensures FragmentOf(id, data, index)
         == Fragment(id, |data|, index,
                     if 1056 * index + 1056 <= |data| then data[1056 * index..1056 * index + 1056]
                     else data[1056 * index..])
  {
  }

  // Which frames are read, and as what: none shorter than its header, longer than 1072 bytes, under another name, of
  // a datagram over 65507 bytes, past its last fragment, or of another length than that fragment's.
  lemma {:induction false} DecodesExactly(b: Bytes)
    ensures Decode(b).Some? <==>
              && 16 <= |b| <= 1072 && b[..4] == Ascii("QUD1")
              && var size, index := Unsigned(b[12..14]), Unsigned(b[14..16]);
                 && size <= 65507 && (1056 * index < size || (index == 0 && size == 0))
                 && |b| == 16 + if 1056 * index + 1056 <= size then 1056 else size - 1056 * index
    ensures Decode(b).Some? ==>
              Decode(b).value == Fragment(Unsigned(b[4..12]), Unsigned(b[12..14]), Unsigned(b[14..16]), b[16..])
  {
  }

  lemma {:induction false} FragmentProper(id: nat, data: Bytes, index: nat)
    requires id < ID_SPACE && |data| <= MAX_DATAGRAM && index < Count(|data|)
    ensures Proper(FragmentOf(id, data, index))
    ensures |Encode(FragmentOf(id, data, index))| <= FRAME_LIMIT && Count(|data|) < SLOTS
  {
  }

  // The first n slices, in order, are the datagram up to there.
  function Joined(chunks: seq<Bytes>): Bytes {
    if chunks == [] then [] else Joined(chunks[..|chunks| - 1]) + chunks[|chunks| - 1]
  }

  lemma {:induction false} JoinedSlices(data: Bytes, chunks: seq<Bytes>)
    requires |chunks| <= Count(|data|) && forall i :: 0 <= i < |chunks| ==> chunks[i] == Slice(data, i)
    ensures Joined(chunks) == data[..if |chunks| * CHUNK <= |data| then |chunks| * CHUNK else |data|]
  {
    if chunks != [] {
      var n := |chunks| - 1;
      JoinedSlices(data, chunks[..n]);
      assert n * CHUNK <= |data|;
      assert data[..n * CHUNK] + Slice(data, n) == data[..n * CHUNK + ChunkSize(|data|, n)];
    }
  }

  /* The receiver */

  // One incomplete datagram: its chunks by index, the bitmap of those seen, and how many are missing.
  datatype Assembly = Assembly(chunks: seq<Bytes>, size: nat, seen: seq<bool>, remaining: int, expires: int)

  type Table = map<nat, Assembly>

  function Repeat<T>(n: nat, x: T): (s: seq<T>)
    ensures |s| == n && forall i :: 0 <= i < n ==> s[i] == x
  {
    seq(n, _ => x)
  }

  function Live(s: Table, now: int): Table { s - (set id | id in s && now >= s[id].expires) }

  // Making room for id evicts an assembly only from a full table that does not hold id.
  function Room(s: Table, id: nat, victim: nat): Table { if id !in s && |s| >= MAX_ASSEMBLIES then s - {victim} else s }

  function Begin(size: nat, now: int): Assembly {
    Assembly(Repeat(SLOTS, []), size, Repeat(SLOTS, false), Count(size), now + LIFETIME)
  }

  function Find(s: Table, f: Fragment, now: int): Assembly { if f.id in s then s[f.id] else Begin(f.size, now) }

  predicate Sized(p: Assembly) { |p.chunks| == |p.seen| == SLOTS }

  function Add(p: Assembly, f: Fragment): Assembly
    requires Sized(p) && f.index < SLOTS
  {
    p.(chunks := p.chunks[f.index := f.chunk], seen := p.seen[f.index := true], remaining := p.remaining - 1)
  }

  // The fragment joins its assembly, and completes it or not; a size mismatch or a repeat changes nothing.
  function Take(s: Table, p: Assembly, f: Fragment): (Table, Option<Bytes>) {
    if p.size != f.size || !Sized(p) || f.index >= SLOTS || p.seen[f.index] then (s[f.id := p], None) else
    var q := Add(p, f);
    if q.remaining != 0 then (s[f.id := q], None) else (s - {f.id}, Some(Joined(q.chunks)))
  }

  function Receive(s: Table, m: Option<Fragment>, now: int, victim: nat): (Table, Option<Bytes>) {
    var live := Live(s, now);
    match m
    case None => (live, None)
    case Some(f) =>
      if Count(f.size) == 1 then (live, Some(f.chunk))
      else var room := Room(live, f.id, victim); Take(room, Find(room, f, now), f)
  }

  // Scanning the table for the least expiry can end at victim.
  ghost predicate Soonest(s: Table, victim: nat) {
    victim in s && forall k :: k in s ==> s[victim].expires <= s[k].expires
  }
}
