/** What the receiver delivers, over every interleaving, loss, duplication and reordering of frames. */
module Reassembly {
  import opened Bytes
  import opened Fragments

  /* One assembly */

  // Bits not set among the first n.
  function Missing(seen: seq<bool>, n: nat): nat
    requires n <= |seen|
  {
    if n == 0 then 0 else Missing(seen, n - 1) + if seen[n - 1] then 0 else 1
  }

  lemma {:induction false} MissingSet(seen: seq<bool>, n: nat, k: nat)
    requires n <= |seen| && k < |seen| && !seen[k]
    ensures Missing(seen[k := true], n) == Missing(seen, n) - if k < n then 1 else 0
  {
    if n > 0 {
      MissingSet(seen, n - 1, k);
    }
  }

  lemma {:induction false} MissingNone(seen: seq<bool>, n: nat)
    requires n <= |seen|
    ensures Missing(seen, n) == 0 <==> forall i :: 0 <= i < n ==> seen[i]
  {
    if n > 0 {
      MissingNone(seen, n - 1);
    }
  }

  lemma {:induction false} MissingAll(seen: seq<bool>, n: nat)
    requires n <= |seen| && forall i :: 0 <= i < n ==> !seen[i]
    ensures Missing(seen, n) == n
  {
    if n > 0 {
      MissingAll(seen, n - 1);
    }
  }

  // p is collecting data: what it has seen is exactly data's slices, and it counts what is missing.
  ghost predicate Collects(p: Assembly, data: Bytes) {
    && Sized(p) && p.size == |data| <= MAX_DATAGRAM && 1 < Count(|data|) < SLOTS
    && p.remaining == Missing(p.seen, Count(|data|))
    && forall i :: 0 <= i < SLOTS ==>
         if p.seen[i] then i < Count(|data|) && p.chunks[i] == Slice(data, i) else p.chunks[i] == []
  }

  lemma {:induction false} BeginCollects(data: Bytes, now: int)
    requires |data| <= MAX_DATAGRAM && Count(|data|) > 1
    ensures Collects(Begin(|data|, now), data)
  {
    MissingAll(Repeat(SLOTS, false), Count(|data|));
  }

  lemma {:induction false} AddCollects(p: Assembly, data: Bytes, id: nat, index: nat)
    requires Collects(p, data) && index < Count(|data|) && !p.seen[index]
    ensures Collects(Add(p, FragmentOf(id, data, index)), data)
    ensures Add(p, FragmentOf(id, data, index)).remaining == p.remaining - 1
  {
    MissingSet(p.seen, Count(|data|), index);
  }

  lemma {:induction false} JoinedTail(chunks: seq<Bytes>, n: nat)
    requires n <= |chunks| && forall i :: n <= i < |chunks| ==> chunks[i] == []
    ensures Joined(chunks) == Joined(chunks[..n])
  {
    if n < |chunks| {
      var m := |chunks| - 1;
      JoinedTail(chunks[..m], n);
      assert chunks[..m][..n] == chunks[..n];
    } else {
      assert chunks[..n] == chunks;
    }
  }

  // Nothing missing: the chunks join to the datagram.
  lemma {:induction false} CompleteJoins(p: Assembly, data: Bytes)
    requires Collects(p, data) && p.remaining == 0
    ensures Joined(p.chunks) == data
  {
    var n := Count(|data|);
    MissingNone(p.seen, n);
    JoinedTail(p.chunks, n);
    JoinedSlices(data, p.chunks[..n]);
    assert data[..|data|] == data;
  }

  /* Safety */

  // sent: the datagram written under each id.
  ghost predicate Faithful(s: Table, sent: map<nat, Bytes>) {
    forall id :: id in s ==> id in sent && Collects(s[id], sent[id])
  }

  ghost predicate Genuine(m: Option<Fragment>, sent: map<nat, Bytes>) {
    m.Some? ==>
      && m.value.id in sent && |sent[m.value.id]| <= MAX_DATAGRAM
      && m.value.index < Count(|sent[m.value.id]|)
      && m.value == FragmentOf(m.value.id, sent[m.value.id], m.value.index)
  }

  lemma {:induction false} WholeSlice(data: Bytes)
    requires Count(|data|) == 1
    ensures Slice(data, 0) == data
  {
  }

  lemma {:induction false} TakeFaithful(s: Table, p: Assembly, f: Fragment, data: Bytes)
    requires Collects(p, data) && f.index < Count(|data|) && f == FragmentOf(f.id, data, f.index)
    ensures var (t, got) := Take(s, p, f);
            && (got.Some? ==> got.value == data && t == s - {f.id})
            && (got.None? ==> f.id in t && t == s[f.id := t[f.id]] && Collects(t[f.id], data))
  {
    if !p.seen[f.index] {
      AddCollects(p, data, f.id, f.index);
      if Add(p, f).remaining == 0 {
        CompleteJoins(Add(p, f), data);
      }
    }
  }

  lemma {:induction false} RoomFaithful(s: Table, sent: map<nat, Bytes>, id: nat, now: int, victim: nat)
    requires Faithful(s, sent)
    ensures Faithful(Room(Live(s, now), id, victim), sent)
  {
  }

  lemma {:induction false} TakeKeeps(room: Table, sent: map<nat, Bytes>, p: Assembly, f: Fragment)
    requires Faithful(room, sent) && f.id in sent && Collects(p, sent[f.id])
    requires f.index < Count(|sent[f.id]|) && f == FragmentOf(f.id, sent[f.id], f.index)
    ensures var (t, got) := Take(room, p, f);
            Faithful(t, sent) && (got.Some? ==> got.value == sent[f.id])
  {
    TakeFaithful(room, p, f, sent[f.id]);
  }

  // A step keeps every assembly faithful, and delivers only the datagram its fragment was cut from.
  lemma {:induction false} ReceiveFaithful(s: Table, sent: map<nat, Bytes>, m: Option<Fragment>, now: int, victim: nat)
    requires Faithful(s, sent) && Genuine(m, sent)
    ensures var (t, got) := Receive(s, m, now, victim);
            Faithful(t, sent) && (got.Some? ==> m.Some? && got.value == sent[m.value.id])
  {
    if m.Some? {
      var f := m.value;
      var data := sent[f.id];
      if Count(f.size) == 1 {
        WholeSlice(data);
      } else {
        var room := Room(Live(s, now), f.id, victim);
        RoomFaithful(s, sent, f.id, now, victim);
        if f.id !in room { BeginCollects(data, now); }
        TakeKeeps(room, sent, Find(room, f, now), f);
      }
    }
  }

  /* Runs */

  // What one call reads (None when the frame is dropped), the clock, and the victim if it evicts.
  datatype Input = Input(m: Option<Fragment>, now: int, victim: nat)

  function After(run: seq<Input>): Table {
    if run == [] then map[]
    else var x := run[|run| - 1]; Receive(After(run[..|run| - 1]), x.m, x.now, x.victim).0
  }

  function At(run: seq<Input>, i: nat): (Table, Option<Bytes>)
    requires i < |run|
  {
    Receive(After(run[..i]), run[i].m, run[i].now, run[i].victim)
  }

  lemma {:induction false} AfterNext(run: seq<Input>, i: nat)
    requires i < |run|
    ensures After(run[..i + 1]) == At(run, i).0
  {
    assert run[..i + 1][..i] == run[..i];
  }

  // Write number k of a connection whose counter started at seed carries this id.
  function IdOf(seed: nat, k: nat): nat { (seed + k + 1) % ID_SPACE }

  function SentBy(seed: nat, writes: seq<Bytes>): map<nat, Bytes> {
    if writes == [] then map[]
    else SentBy(seed, writes[..|writes| - 1])[IdOf(seed, |writes| - 1) := writes[|writes| - 1]]
  }

  lemma {:induction false} IdsDistinct(seed: nat, j: nat, k: nat)
    requires j < k < j + ID_SPACE
    ensures IdOf(seed, j) != IdOf(seed, k)
  {
  }

  // Up to 2^64 writes have distinct ids, so each id stands for one datagram.
  lemma {:induction false} SentById(seed: nat, writes: seq<Bytes>, k: nat)
    requires k < |writes| <= ID_SPACE
    ensures IdOf(seed, k) in SentBy(seed, writes) && SentBy(seed, writes)[IdOf(seed, k)] == writes[k]
  {
    var n := |writes| - 1;
    if k < n {
      SentById(seed, writes[..n], k);
      IdsDistinct(seed, k, n);
    }
  }

  ghost predicate Fits(writes: seq<Bytes>) {
    |writes| <= ID_SPACE && forall k :: 0 <= k < |writes| ==> |writes[k]| <= MAX_DATAGRAM
  }

  // f is a fragment of write k.
  ghost predicate Cut(seed: nat, writes: seq<Bytes>, f: Fragment, k: nat) {
    k < |writes| && f.index < Count(|writes[k]|) && f == FragmentOf(IdOf(seed, k), writes[k], f.index)
  }

  ghost predicate FromWrites(seed: nat, writes: seq<Bytes>, m: Option<Fragment>) {
    m.Some? ==> exists k: nat :: Cut(seed, writes, m.value, k)
  }

  lemma {:induction false} CutGenuine(seed: nat, writes: seq<Bytes>, f: Fragment, k: nat)
    requires Fits(writes) && Cut(seed, writes, f, k)
    ensures Genuine(Some(f), SentBy(seed, writes)) && SentBy(seed, writes)[f.id] == writes[k]
  {
    SentById(seed, writes, k);
  }

  lemma {:induction false} AfterFaithful(seed: nat, writes: seq<Bytes>, run: seq<Input>)
    requires Fits(writes) && forall i :: 0 <= i < |run| ==> FromWrites(seed, writes, run[i].m)
    ensures Faithful(After(run), SentBy(seed, writes))
  {
    if run != [] {
      var n := |run| - 1;
      AfterFaithful(seed, writes, run[..n]);
      if run[n].m.Some? {
        var k: nat :| Cut(seed, writes, run[n].m.value, k);
        CutGenuine(seed, writes, run[n].m.value, k);
      }
      ReceiveFaithful(After(run[..n]), SentBy(seed, writes), run[n].m, run[n].now, run[n].victim);
    }
  }

  // Whatever fragments of up to 2^64 writes arrive, in whatever order, however often and at whatever times,
  // each delivered datagram is exactly the one that the fragment completing it was cut from.
  lemma {:induction false} OnlyWhatWasWritten(seed: nat, writes: seq<Bytes>, run: seq<Input>, i: nat, k: nat)
    requires Fits(writes) && i < |run| && forall j :: 0 <= j <= i ==> FromWrites(seed, writes, run[j].m)
    requires run[i].m.Some? ==> Cut(seed, writes, run[i].m.value, k)
    ensures At(run, i).1.Some? ==> run[i].m.Some? && At(run, i).1.value == writes[k]
  {
    AfterFaithful(seed, writes, run[..i]);
    if run[i].m.Some? {
      CutGenuine(seed, writes, run[i].m.value, k);
    }
    ReceiveFaithful(After(run[..i]), SentBy(seed, writes), run[i].m, run[i].now, run[i].victim);
  }

  /* Bytes */

  // The frame of fragment `index` of write k.
  ghost predicate Written(seed: nat, writes: seq<Bytes>, frame: Bytes, k: nat, index: nat) {
    k < |writes| && index < Count(|writes[k]|) && frame == Encode(FragmentOf(IdOf(seed, k), writes[k], index))
  }

  lemma {:induction false} WrittenCut(seed: nat, writes: seq<Bytes>, frame: Bytes, k: nat, index: nat)
    requires Fits(writes) && Written(seed, writes, frame, k, index)
    ensures Decode(frame).Some? && Cut(seed, writes, Decode(frame).value, k)
  {
    FragmentProper(IdOf(seed, k), writes[k], index);
    DecodeOfEncode(FragmentOf(IdOf(seed, k), writes[k], index));
  }

  // A frame as Read gets it.
  datatype Arrival = Arrival(frame: Bytes, now: int, victim: nat)

  function Heard(arrivals: seq<Arrival>): (run: seq<Input>)
    ensures |run| == |arrivals|
    ensures forall i :: 0 <= i < |run| ==>
              run[i] == Input(Decode(arrivals[i].frame), arrivals[i].now, arrivals[i].victim)
  {
    if arrivals == [] then []
    else
      var x := arrivals[|arrivals| - 1];
      Heard(arrivals[..|arrivals| - 1]) + [Input(Decode(x.frame), x.now, x.victim)]
  }

  ghost predicate SentFrame(seed: nat, writes: seq<Bytes>, frame: Bytes) {
    exists k: nat, index: nat :: Written(seed, writes, frame, k, index)
  }

  // The same of frames: when every frame that arrives is one that was sent, every delivered datagram is one
  // that was written, whole and unmixed.
  lemma {:induction false} FramesDeliverWrites(seed: nat, writes: seq<Bytes>, arrivals: seq<Arrival>, i: nat)
    requires Fits(writes) && i < |arrivals|
             && forall j :: 0 <= j < |arrivals| ==> SentFrame(seed, writes, arrivals[j].frame)
    ensures At(Heard(arrivals), i).1.Some? ==>
              exists k: nat, index: nat :: Written(seed, writes, arrivals[i].frame, k, index)
                  && At(Heard(arrivals), i).1.value == writes[k]
  {
    var run := Heard(arrivals);
    forall j | 0 <= j < |run| ensures FromWrites(seed, writes, run[j].m) {
      assert SentFrame(seed, writes, arrivals[j].frame);
      var k: nat, index: nat :| Written(seed, writes, arrivals[j].frame, k, index);
      WrittenCut(seed, writes, arrivals[j].frame, k, index);
    }
    assert SentFrame(seed, writes, arrivals[i].frame);
    var k: nat, index: nat :| Written(seed, writes, arrivals[i].frame, k, index);
    WrittenCut(seed, writes, arrivals[i].frame, k, index);
    OnlyWhatWasWritten(seed, writes, run, i, k);
  }
}
