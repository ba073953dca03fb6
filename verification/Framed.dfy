/** One framed UDP connection as the object it is: the fragment writer with its reused buffer, and the reader. */
module Framed {
  import opened Bytes
  import opened Bucket
  import opened Fragments
  import opened Reassembly
  import opened Delivery

  // Go's copy(dst[at:], src): as many bytes as fit.
  method Copy(dst: array<byte>, at: nat, src: Bytes) returns (n: nat)
    requires at <= dst.Length
    modifies dst
    ensures n == if |src| <= dst.Length - at then |src| else dst.Length - at
    ensures dst[..] == old(dst[..at]) + src[..n] + old(dst[at + n..])
  {
    n := 0;
    while n < |src| && at + n < dst.Length
      invariant n <= |src| && at + n <= dst.Length
      invariant dst[..at] == old(dst[..at]) && dst[at..at + n] == src[..n] && dst[at + n..] == old(dst[at + n..])
    {
      dst[at + n] := src[n];
      n := n + 1;
    }
  }

  function Header(id: nat, size: nat, index: nat): (b: Bytes)
    ensures |b| == HEADER
  {
    Ascii("QUD1") + BigEndian(id, 8) + BigEndian(size, 2) + BigEndian(index, 2)
  }

  function Framing(id: nat, data: Bytes, n: nat): (frames: seq<Bytes>)
    requires n <= Count(|data|)
    ensures |frames| == n && forall i :: 0 <= i < n ==> frames[i] == Encode(FragmentOf(id, data, i))
  {
    if n == 0 then [] else Framing(id, data, n - 1) + [Encode(FragmentOf(id, data, n - 1))]
  }

  // Put one fragment in the buffer, whose first 14 bytes are already the datagram's.
  method Fill(frame: array<byte>, id: nat, data: Bytes, index: nat) returns (size: nat)
    requires frame.Length == FRAME_LIMIT && |data| <= MAX_DATAGRAM && index < Count(|data|)
    requires frame[..14] == Header(id, |data|, 0)[..14]
    modifies frame
    ensures size <= FRAME_LIMIT && frame[..size] == Encode(FragmentOf(id, data, index))
    ensures frame[..14] == Header(id, |data|, 0)[..14]
  {
    var _ := Copy(frame, 14, BigEndian(index, 2));
    assert frame[..14] == Header(id, |data|, 0)[..14];
    assert frame[14..16] == BigEndian(index, 2);
    assert frame[..HEADER] == Header(id, |data|, index);
    var offset := index * CHUNK;
    ghost var before := frame[..HEADER];
    var n := Copy(frame, HEADER, data[offset..]);
    assert frame[..HEADER] == before;
    size := HEADER + n;
    assert data[offset..][..n] == Slice(data, index);
    assert frame[..size] == before + data[offset..][..n];
  }

  // What the connection underneath yields, and what a Read returns.
  datatype Packet = Packet(frame: Bytes, now: int)
  // A datagram that does not fit the caller's buffer is lost.
  datatype ReadResult = Datagram(data: Bytes) | ShortBuffer(lost: Bytes) | Failed

  // The decoder was given these packets after `before`.
  ghost predicate Took(before: seq<Input>, history: seq<Input>, packets: seq<Packet>) {
    && |history| == |before| + |packets| && history[..|before|] == before
    && forall i :: 0 <= i < |packets| ==>
         var x := history[|before| + i]; x.m == Decode(packets[i].frame) && x.now == packets[i].now
  }

  // What the last call of a run delivered.
  function Last(run: seq<Input>): Option<Bytes> { if run == [] then None else At(run, |run| - 1).1 }

  lemma {:induction false} LastNext(run: seq<Input>, x: Input)
    ensures (After(run + [x]), Last(run + [x])) == Receive(After(run), x.m, x.now, x.victim)
  {
    assert (run + [x])[..|run|] == run;
  }

  // With these results, calls [lo, hi) delivered nothing.
  ghost predicate Silent(last: seq<Input> -> Option<Bytes>, run: seq<Input>, lo: nat, hi: nat)
    requires hi <= |run|
  {
    forall n: nat {:trigger Nothing(last, run, n)} :: lo < n <= hi ==> Nothing(last, run, n)
  }

  ghost predicate Nothing(last: seq<Input> -> Option<Bytes>, run: seq<Input>, n: nat)
    requires n <= |run|
  {
    last(run[..n]) == None
  }

  lemma {:induction false} SilentMore(last: seq<Input> -> Option<Bytes>, before: seq<Input>, history: seq<Input>,
                                      lo: nat)
    requires Silent(last, before, lo, |before|) && |history| == |before| + 1 && history[..|before|] == before
             && lo <= |before|
    ensures Silent(last, history, lo, |before|)
    ensures last(history) == None ==> Silent(last, history, lo, |history|)
  {
    forall n: nat | lo < n <= |before| ensures Nothing(last, history, n) {
      assert Nothing(last, before, n);
      assert history[..n] == before[..n];
    }
    assert history[..|history|] == history;
  }

  lemma {:induction false} PrefixNext<T>(s: seq<T>, n: nat)
    requires n < |s|
    ensures s[..n] + [s[n]] == s[..n + 1]
  {
  }

  // The packets were given to the decoder and none of them completed a datagram.
  ghost predicate Fruitless(last: seq<Input> -> Option<Bytes>, start: seq<Input>, history: seq<Input>,
                            packets: seq<Packet>) {
    Took(start, history, packets) && Silent(last, history, |start|, |history|)
  }

  // The packets were given to the decoder and the last of them, alone, completed a datagram.
  ghost predicate Fruitful(last: seq<Input> -> Option<Bytes>, start: seq<Input>, history: seq<Input>,
                           packets: seq<Packet>, data: Bytes) {
    packets != [] && Took(start, history, packets) && Silent(last, history, |start|, |history| - 1)
        && last(history) == Some(data)
  }

  lemma {:induction false} TookMore(start: seq<Input>, before: seq<Input>, history: seq<Input>, packets: seq<Packet>,
                                    x: Packet, victim: nat)
    requires Took(start, before, packets) && history == before + [Input(Decode(x.frame), x.now, victim)]
    ensures Took(start, history, packets + [x])
  {
  }

  class Connection {
    var next: nat
    var pending: Table

    // Everything the decoder has been given since it was last cleared.
    ghost var history: seq<Input>

    ghost predicate Valid()
      reads this
    {
      && next < ID_SPACE && AllFormed(pending) && pending == After(history) && (Regular(history) ==> AllFair(history))
    }

    constructor (seed: nat)
      requires seed < ID_SPACE
      ensures Valid() && next == seed && history == []
    {
      next, pending, history := seed, map[], [];
    }

    // `healthy` is how many fragments the connection underneath takes before it fails.
    method Write(packet: Bytes, healthy: nat) returns (sent: seq<Bytes>, ok: bool)
      requires Valid()
      modifies this`next
      ensures Valid()
      ensures |packet| > MAX_DATAGRAM ==> !ok && sent == [] && next == old(next)
      ensures |packet| <= MAX_DATAGRAM ==>
                && next == IdOf(old(next), 0) && ok == (healthy >= Count(|packet|))
                && sent == Framing(next, packet, if ok then Count(|packet|) else healthy)
    {
      if |packet| > MAX_DATAGRAM {
        return [], false;
      }
      next := (next + 1) % ID_SPACE;
      var count := (|packet| + CHUNK - 1) / CHUNK;
      if count == 0 {
        count := 1;
      }
      var frame := new byte[FRAME_LIMIT](_ => 0);
      var id, head := next, Header(next, |packet|, 0);
      var n := Copy(frame, 0, head);
      assert frame[..][..n] == head;
      assert frame[..14] == frame[..][..n][..14];
      sent := [];
      var index := 0;
      while index < count
        invariant 0 <= index <= count == Count(|packet|) && index <= healthy && Valid()
        invariant next == id && frame[..14] == head[..14] && sent == Framing(id, packet, index)
      {
        var size := Fill(frame, id, packet, index);
        if index == healthy {
          return sent, false;
        }
        sent := sent + [frame[..size]];
        index := index + 1;
      }
      return sent, true;
    }

    // One frame for the decoder.
    method Accept(frame: Bytes, now: int) returns (out: Option<Bytes>, ghost victim: nat)
      requires Valid()
      modifies this`pending, this`history
      ensures Valid() && history == old(history) + [Input(Decode(frame), now, victim)] && out == Last(history)
    {
      var m := Decode(frame);
      if m.Some? { EncodeOfDecode(frame); }
      out, victim := Feed(m, now);
    }

    method Feed(m: Option<Fragment>, now: int) returns (out: Option<Bytes>, ghost victim: nat)
      requires Valid() && (m.Some? ==> Proper(m.value))
      modifies this`pending, this`history
      ensures Valid() && history == old(history) + [Input(m, now, victim)] && out == Last(history)
    {
      out, victim := AcceptFragment(m, now);
      Grow(history, Input(m, now, victim), pending, out);
      history := history + [Input(m, now, victim)];
    }

    // One frame through Read's buffer.
    method ReadOne(x: Packet) returns (out: Option<Bytes>, ghost victim: nat)
      requires Valid()
      modifies this`pending, this`history
      ensures Valid() && history == old(history) + [Input(Decode(x.frame), x.now, victim)] && out == Last(history)
    {
      var got := if |x.frame| > FRAME_LIMIT + 1 then x.frame[..FRAME_LIMIT + 1] else x.frame;
      if |x.frame| > FRAME_LIMIT + 1 { CutRefused(x.frame); }
      out, victim := Accept(got, x.now);
    }

    // One more frame of a Read that has taken `packets` without a result.
    method ReadNext(ghost start: seq<Input>, ghost packets: seq<Packet>, x: Packet) returns (out: Option<Bytes>)
      requires Valid() && Fruitless(Last, start, history, packets)
      modifies this`pending, this`history
      ensures Valid()
              && (if out.None? then Fruitless(Last, start, history, packets + [x])
                  else Fruitful(Last, start, history, packets + [x], out.value))
    {
      ghost var before := history;
      ghost var victim;
      out, victim := ReadOne(x);
      SilentMore(Last, before, history, |start|);
      TookMore(start, before, history, packets, x, victim);
    }

    // Reads frames until one completes a datagram. `incoming` is what the connection underneath yields
    // before it fails.
    method Read(incoming: seq<Packet>, capacity: nat) returns (result: ReadResult, used: nat)
      requires Valid()
      modifies this`pending, this`history
      ensures Valid() && used <= |incoming|
      ensures result.Failed? ==> used == |incoming| && history == []
      ensures result.Datagram? ==>
                |result.data| <= capacity && Fruitful(Last, old(history), history, incoming[..used], result.data)
      ensures result.ShortBuffer? ==>
                |result.lost| > capacity && Fruitful(Last, old(history), history, incoming[..used], result.lost)
    {
      used := 0;
      while used < |incoming|
        invariant Valid() && 0 <= used <= |incoming| && Fruitless(Last, old(history), history, incoming[..used])
      {
        PrefixNext(incoming, used);
        var out := ReadNext(old(history), incoming[..used], incoming[used]);
        used := used + 1;
        if out.Some? {
          return if |out.value| > capacity then ShortBuffer(out.value) else Datagram(out.value), used;
        }
      }
      pending, history := map[], [];
      return Failed, used;
    }

    method AcceptFragment(m: Option<Fragment>, now: int) returns (out: Option<Bytes>, ghost victim: nat)
      requires AllFormed(pending) && (m.Some? ==> Proper(m.value))
      modifies this`pending
      ensures AllFormed(pending) && (pending, out) == Receive(old(pending), m, now, victim)
      ensures Stamped(old(pending)) ==> Fair(old(pending), m, now, victim)
    {
      victim := 0;
      pending := ExpireAll(pending, now);
      if m.None? {
        return None, victim;
      }
      var f := m.value;
      if Count(f.size) == 1 {
        return Some(f.chunk), victim;
      }
      if f.id !in pending && |pending| >= MAX_ASSEMBLIES {
        var v;
        pending, v := Evict(pending);
        victim := v;
      }
      out := Join(f, now);
    }

    // Add a fragment to its assembly, started if need be.
    method Join(f: Fragment, now: int) returns (out: Option<Bytes>)
      requires AllFormed(pending) && Proper(f) && Count(f.size) != 1
      modifies this`pending
      ensures AllFormed(pending) && (pending, out) == Take(old(pending), Find(old(pending), f, now), f)
    {
      var p := if f.id in pending then pending[f.id] else Begin(f.size, now);
      BeginFormed(f.size, now);
      pending := pending[f.id := p];
      if p.size != f.size || p.seen[f.index] {
        return None;
      }
      AddFormed(p, f);
      p := Add(p, f);
      pending := pending[f.id := p];
      assert pending == old(pending)[f.id := p];
      if p.remaining != 0 {
        return None;
      }
      pending := pending - {f.id};
      assert pending == old(pending) - {f.id};
      var data := Assemble(p);
      return Some(data);
    }
  }

  // The ids a connection's writes use are the ones the reassembly theorems number, and the frames of
  // write k, all or some, are frames those theorems speak of.
  lemma {:induction false} WritesNumbered(seed: nat, writes: seq<Bytes>, k: nat, n: nat)
    requires k < |writes| && n <= Count(|writes[k]|)
    ensures IdOf(IdOf(seed, k), 0) == IdOf(seed, k + 1)
    ensures forall f :: f in Framing(IdOf(seed, k), writes[k], n) ==> SentFrame(seed, writes, f)
  {
    forall f | f in Framing(IdOf(seed, k), writes[k], n) ensures SentFrame(seed, writes, f) {
      var i: nat :| i < n && f == Framing(IdOf(seed, k), writes[k], n)[i];
      assert Written(seed, writes, f, k, i);
    }
  }

  /* What is read was written */

  ghost predicate AllFromWrites(seed: nat, writes: seq<Bytes>, run: seq<Input>) {
    forall j :: 0 <= j < |run| ==> FromWrites(seed, writes, run[j].m)
  }

  ghost predicate AllSent(seed: nat, writes: seq<Bytes>, packets: seq<Packet>) {
    forall j :: 0 <= j < |packets| ==> SentFrame(seed, writes, packets[j].frame)
  }

  lemma {:induction false} TookFromWrites(seed: nat, writes: seq<Bytes>, start: seq<Input>, history: seq<Input>,
                                          packets: seq<Packet>)
    requires Fits(writes) && AllFromWrites(seed, writes, start) && AllSent(seed, writes, packets)
    requires Took(start, history, packets)
    ensures AllFromWrites(seed, writes, history)
  {
    forall j | 0 <= j < |history| ensures FromWrites(seed, writes, history[j].m) {
      if j < |start| {
        assert history[j] == history[..|start|][j];
      } else {
        var i := j - |start|;
        var k, index := FrameOf(seed, writes, packets[i].frame);
        assert history[|start| + i].m == Decode(packets[i].frame);
      }
    }
  }

  // The write and fragment a frame is of, and what the decoder makes of it.
  lemma {:induction false} FrameOf(seed: nat, writes: seq<Bytes>, frame: Bytes) returns (k: nat, index: nat)
    requires Fits(writes) && SentFrame(seed, writes, frame)
    ensures Written(seed, writes, frame, k, index)
    ensures Decode(frame).Some? && Cut(seed, writes, Decode(frame).value, k)
  {
    k, index :| Written(seed, writes, frame, k, index);
    WrittenCut(seed, writes, frame, k, index);
  }

  lemma {:induction false} LastOfWrite(seed: nat, writes: seq<Bytes>, history: seq<Input>, k: nat, data: Bytes)
    requires Fits(writes) && AllFromWrites(seed, writes, history) && Last(history) == Some(data)
    requires history[|history| - 1].m.Some? && Cut(seed, writes, history[|history| - 1].m.value, k)
    ensures k < |writes| && data == writes[k]
  {
    OnlyWhatWasWritten(seed, writes, history, |history| - 1, k);
  }

  // One end writes, the other reads: whatever the network does with the frames, what a Read returns, or reports as
  // too long, is the datagram that its last frame was cut from, whole. The decoder keeps to frames of writes, so
  // this holds of every Read in turn.
  lemma {:induction false} ReadsWhatWasWritten(seed: nat, writes: seq<Bytes>, start: seq<Input>, history: seq<Input>,
                                               packets: seq<Packet>, data: Bytes) returns (k: nat, index: nat)
    requires Fits(writes) && AllFromWrites(seed, writes, start) && AllSent(seed, writes, packets)
    requires Fruitful(Last, start, history, packets, data)
    ensures AllFromWrites(seed, writes, history)
    ensures Written(seed, writes, packets[|packets| - 1].frame, k, index) && data == writes[k]
  {
    var n := |packets| - 1;
    TookFromWrites(seed, writes, start, history, packets);
    k, index := FrameOf(seed, writes, packets[n].frame);
    assert history[|start| + n].m == Decode(packets[n].frame);
    LastOfWrite(seed, writes, history, k, data);
  }

  // No call happens two seconds before Go's zero time.
  ghost predicate Regular(run: seq<Input>) { forall i :: 0 <= i < |run| ==> run[i].now + LIFETIME != ZERO_TIME }

  lemma {:induction false} FairNext(run: seq<Input>, x: Input)
    requires Regular(run) ==> AllFair(run)
    requires Stamped(After(run)) ==> Fair(After(run), x.m, x.now, x.victim)
    ensures Regular(run + [x]) ==> AllFair(run + [x])
  {
    var more := run + [x];
    if Regular(more) {
      forall i | 0 <= i < |run| ensures run[i].now + LIFETIME != ZERO_TIME { assert more[i] == run[i]; }
      assert run[..|run|] == run;
      forall id | id in After(run) ensures After(run)[id].expires != ZERO_TIME {
        var c := HeldWasStarted(run, |run|, id);
      }
      forall i | 0 <= i < |more| ensures Fair(After(more[..i]), more[i].m, more[i].now, more[i].victim) {
        assert more[..i] == run[..i];
      }
    }
  }

  lemma {:induction false} Grow(run: seq<Input>, x: Input, pending: Table, out: Option<Bytes>)
    requires Regular(run) ==> AllFair(run)
    requires Stamped(After(run)) ==> Fair(After(run), x.m, x.now, x.victim)
    requires (pending, out) == Receive(After(run), x.m, x.now, x.victim)
    ensures pending == After(run + [x]) && out == Last(run + [x])
    ensures Regular(run + [x]) ==> AllFair(run + [x])
  {
    LastNext(run, x);
    FairNext(run, x);
  }

  // Read's buffer is one byte longer than a frame may be, so a cut frame is refused like the whole one.
  lemma {:induction false} CutRefused(frame: Bytes)
    requires |frame| > FRAME_LIMIT + 1
    ensures Decode(frame[..FRAME_LIMIT + 1]) == Decode(frame) == None
  {
  }

  /* The decoder's assemblies */

  // Chunks fill the slots whose bits are set, each with its size; the counter tells the bits not set.
  ghost predicate Formed(p: Assembly) {
    && Sized(p) && CHUNK < p.size <= MAX_DATAGRAM && Count(p.size) < SLOTS
       && p.remaining == Missing(p.seen, Count(p.size))
    && forall i :: 0 <= i < SLOTS ==>
         if p.seen[i] then i < Count(p.size) && |p.chunks[i]| == ChunkSize(p.size, i) else p.chunks[i] == []
  }

  ghost predicate AllFormed(s: Table) { forall id :: id in s ==> Formed(s[id]) }

  ghost predicate Stamped(s: Table) { forall id :: id in s ==> s[id].expires != ZERO_TIME }

  lemma {:induction false} BeginFormed(size: nat, now: int)
    requires CHUNK < size <= MAX_DATAGRAM
    ensures Formed(Begin(size, now))
  {
    MissingAll(Repeat(SLOTS, false), Count(size));
  }

  lemma {:induction false} AddFormed(p: Assembly, f: Fragment)
    requires Formed(p) && Proper(f) && p.size == f.size && f.index < SLOTS && !p.seen[f.index]
    ensures Formed(Add(p, f))
  {
    MissingSet(p.seen, Count(p.size), f.index);
  }

  method ExpireAll(s: Table, now: int) returns (kept: Table)
    ensures kept == Live(s, now)
  {
    kept := s;
    var todo := s.Keys;
    while todo != {}
      invariant todo <= s.Keys
      invariant kept == s - (set id | id in s && id !in todo && now >= s[id].expires)
    {
      var id :| id in todo;
      if now >= s[id].expires {
        kept := kept - {id};
      }
      todo := todo - {id};
    }
  }

  // Deletes an assembly with the least expiry; "none yet" is the zero time, so this needs Stamped.
  method Evict(s: Table) returns (left: Table, victim: nat)
    requires |s| > 0
    ensures left == s - {victim} && (Stamped(s) ==> Soonest(s, victim))
  {
    var oldest, expires, todo := 0, ZERO_TIME, s.Keys;
    assert |s| == |s.Keys|;
    while todo != {}
      invariant todo <= s.Keys
      invariant expires != ZERO_TIME ==> oldest in s && s[oldest].expires == expires
      invariant Stamped(s) && expires == ZERO_TIME ==> todo == s.Keys
      invariant Stamped(s) ==> forall k :: k in s && k !in todo ==> expires <= s[k].expires
    {
      var k :| k in todo;
      if expires == ZERO_TIME || s[k].expires < expires {
        oldest, expires := k, s[k].expires;
      }
      todo := todo - {k};
    }
    return s - {oldest}, oldest;
  }

  lemma {:induction false} JoinedSize(p: Assembly, n: nat)
    requires Formed(p) && p.remaining == 0 && n <= SLOTS
    ensures |Joined(p.chunks[..n])| == if n * CHUNK <= p.size then n * CHUNK else p.size
  {
    if n > 0 {
      JoinedSize(p, n - 1);
      MissingNone(p.seen, Count(p.size));
      assert p.chunks[..n][..n - 1] == p.chunks[..n - 1];
    }
  }

  function Offset(p: Assembly, i: nat): nat { if i * CHUNK <= p.size then i * CHUNK else p.size }

  // The next chunk fits exactly where the ones before it end.
  lemma {:induction false} NextChunk(p: Assembly, i: nat)
    requires Formed(p) && p.remaining == 0 && i < SLOTS
    ensures Joined(p.chunks[..i + 1]) == Joined(p.chunks[..i]) + p.chunks[i]
    ensures |Joined(p.chunks[..i])| == Offset(p, i) && Offset(p, i) + |p.chunks[i]| == Offset(p, i + 1) <= p.size
  {
    JoinedSize(p, i);
    JoinedSize(p, i + 1);
    assert p.chunks[..i + 1][..i] == p.chunks[..i];
  }

  // Copies each chunk to its offset; slots past the last fragment are empty.
  method Assemble(p: Assembly) returns (data: Bytes)
    requires Formed(p) && p.remaining == 0
    ensures data == Joined(p.chunks)
  {
    var buffer := new byte[p.size](_ => 0);
    var i := 0;
    while i < SLOTS
      invariant 0 <= i <= SLOTS && Offset(p, i) <= p.size
      invariant buffer[..Offset(p, i)] == Joined(p.chunks[..i])
    {
      NextChunk(p, i);
      ghost var front := buffer[..Offset(p, i)];
      var n := Copy(buffer, Offset(p, i), p.chunks[i]);
      assert buffer[..Offset(p, i + 1)] == front + p.chunks[i];
      i := i + 1;
    }
    JoinedSize(p, SLOTS);
    assert p.chunks[..SLOTS] == p.chunks;
    data := buffer[..];
  }
}
