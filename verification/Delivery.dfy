/** When the receiver delivers: on the last missing fragment, unless two seconds pass or eight newer datagrams start. */
module Delivery {
  import opened Bytes
  import opened Collections
  import opened Bucket
  import opened Fragments
  import opened Reassembly

  /* Delivery on the last missing fragment */

  ghost predicate Carries(run: seq<Input>, i: nat, id: nat)
    requires i < |run|
  {
    run[i].m.Some? && run[i].m.value.id == id
  }

  // The fragments of id that arrived in steps [lo, hi).
  ghost function Arrived(run: seq<Input>, id: nat, lo: nat, hi: nat): set<nat>
    requires lo <= hi <= |run|
    decreases hi
  {
    if lo == hi then {}
    else Arrived(run, id, lo, hi - 1) + if Carries(run, hi - 1, id) then {run[hi - 1].m.value.index} else {}
  }

  ghost function Below(n: nat): (r: set<nat>)
    ensures forall k :: k in r <==> 0 <= k < n
  {
    if n == 0 then {} else Below(n - 1) + {n - 1}
  }

  ghost function All(data: Bytes): set<nat> { Below(Count(|data|)) }

  ghost predicate Multi(m: Option<Fragment>) { m.Some? && m.value.size > CHUNK }

  ghost predicate Alive(s: Table, id: nat, now: int) { id in s && now < s[id].expires }

  // Step i starts an assembly.
  ghost predicate Starts(run: seq<Input>, i: nat)
    requires i < |run|
  {
    Multi(run[i].m) && !Alive(After(run[..i]), run[i].m.value.id, run[i].now)
  }

  // Step i evicts id to make room.
  ghost predicate Evicts(run: seq<Input>, i: nat, id: nat)
    requires i < |run|
  {
    && Starts(run, i) && |Live(After(run[..i]), run[i].now)| >= MAX_ASSEMBLIES
    && run[i].victim == id && Alive(After(run[..i]), id, run[i].now)
  }

  // The state of id's assembly, started at time t, once the fragments in `got` have arrived.
  ghost predicate Progress(s: Table, id: nat, data: Bytes, t: int, got: set<nat>) {
    && id in s && Collects(s[id], data) && s[id].expires == t + LIFETIME
    && forall k :: 0 <= k < SLOTS ==> (s[id].seen[k] <==> k in got)
  }

  lemma {:induction false} Unseen(p: Assembly, data: Bytes, got: set<nat>)
    requires Collects(p, data) && forall k :: 0 <= k < SLOTS ==> (p.seen[k] <==> k in got)
    requires got <= All(data)
    ensures p.remaining == 0 <==> got == All(data)
  {
    MissingNone(p.seen, Count(|data|));
    assert got == All(data) <==> forall k :: 0 <= k < Count(|data|) ==> k in got;
  }

  // A fragment of id joins the assembly p, which has seen `got`.
  lemma {:induction false} TakeProgress(s: Table, p: Assembly, id: nat, data: Bytes, index: nat, t: int, got: set<nat>)
    requires Collects(p, data) && p.expires == t + LIFETIME
             && (forall k :: 0 <= k < SLOTS ==> (p.seen[k] <==> k in got))
    requires got < All(data) && index < Count(|data|)
    ensures var (u, out) := Take(s, p, FragmentOf(id, data, index));
            if got + {index} == All(data) then out == Some(data) && id !in u
            else out == None && Progress(u, id, data, t, got + {index})
  {
    var f := FragmentOf(id, data, index);
    Unseen(p, data, got);
    if !p.seen[index] {
      AddCollects(p, data, id, index);
      Unseen(Add(p, f), data, got + {index});
      if Add(p, f).remaining == 0 { CompleteJoins(Add(p, f), data); }
    } else {
      assert got + {index} == got;
    }
  }

  // A step about something else, that neither expires nor evicts id, leaves its assembly alone.
  lemma {:induction false} OtherKeeps(s: Table, id: nat, m: Option<Fragment>, now: int, victim: nat)
    requires id in s && now < s[id].expires && (m.Some? ==> m.value.id != id)
    requires Multi(m) && m.value.id !in Live(s, now) && |Live(s, now)| >= MAX_ASSEMBLIES ==> victim != id
    ensures var u := Receive(s, m, now, victim).0; id in u && u[id] == s[id]
  {
  }

  ghost predicate Own(run: seq<Input>, id: nat, data: Bytes, j: nat)
    requires j < |run|
  {
    Carries(run, j, id) ==>
      run[j].m.value.index < Count(|data|) && run[j].m.value == FragmentOf(id, data, run[j].m.value.index)
  }

  // Every frame of id in steps [lo, hi) is a fragment of data.
  ghost predicate Pure(run: seq<Input>, id: nat, data: Bytes, lo: nat, hi: nat)
    requires hi <= |run|
  {
    forall j: nat {:trigger Own(run, id, data, j)} :: lo <= j < hi ==> Own(run, id, data, j)
  }

  ghost predicate Undisturbed(run: seq<Input>, id: nat, a: nat, j: nat)
    requires a < |run| && j < |run|
  {
    run[j].now < run[a].now + LIFETIME && !Evicts(run, j, id)
  }

  // Steps (a, hi) stay within two seconds of step a and do not evict id.
  ghost predicate Calm(run: seq<Input>, id: nat, a: nat, hi: nat)
    requires a < hi <= |run|
  {
    forall j: nat {:trigger Undisturbed(run, id, a, j)} :: a < j < hi ==> Undisturbed(run, id, a, j)
  }

  lemma {:induction false} ArrivedWithin(run: seq<Input>, id: nat, data: Bytes, lo: nat, hi: nat)
    requires lo <= hi <= |run| && Pure(run, id, data, lo, hi)
    ensures Arrived(run, id, lo, hi) <= All(data)
  {
    if lo < hi {
      ArrivedWithin(run, id, data, lo, hi - 1);
      assert Own(run, id, data, hi - 1);
    }
  }

  // What step i does for id's datagram, whose assembly step a started: it delivers the datagram if nothing is
  // missing any more, and otherwise holds exactly what arrived.
  ghost predicate Answered(run: seq<Input>, id: nat, data: Bytes, a: nat, i: nat)
    requires a <= i < |run|
  {
    if Arrived(run, id, a, i + 1) == All(data) then At(run, i).1 == Some(data) && id !in At(run, i).0
    else (Carries(run, i, id) ==> At(run, i).1 == None)
         && Progress(At(run, i).0, id, data, run[a].now, Arrived(run, id, a, i + 1))
  }

  // A fragment of id, with id's assembly alive or not yet started.
  lemma {:induction false} ReceiveOwn(s: Table, id: nat, data: Bytes, index: nat, now: int, victim: nat, t: int,
                                      got: set<nat>)
    requires CHUNK < |data| <= MAX_DATAGRAM && index < Count(|data|) && got < All(data)
    requires if got == {} then t == now && !Alive(s, id, now) else Progress(s, id, data, t, got) && now < t + LIFETIME
    ensures var (u, out) := Receive(s, Some(FragmentOf(id, data, index)), now, victim);
            if got + {index} == All(data) then out == Some(data) && id !in u
            else out == None && Progress(u, id, data, t, got + {index})
  {
    var live := Live(s, now);
    var room := Room(live, id, victim);
    if got == {} {
      BeginCollects(data, now);
      TakeProgress(room, Begin(|data|, now), id, data, index, t, got);
    } else {
      assert id in live && room == live;
      TakeProgress(room, s[id], id, data, index, t, got);
    }
  }

  lemma {:induction false} StartStep(run: seq<Input>, id: nat, data: Bytes, a: nat)
    requires a < |run| && CHUNK < |data| <= MAX_DATAGRAM
    requires Starts(run, a) && Carries(run, a, id) && Own(run, id, data, a)
    ensures Answered(run, id, data, a, a)
  {
    assert 0 in All(data);
    assert Arrived(run, id, a, a) == {};
    ReceiveOwn(After(run[..a]), id, data, run[a].m.value.index, run[a].now, run[a].victim, run[a].now, {});
  }

  lemma {:induction false} ArrivedNonempty(run: seq<Input>, id: nat, a: nat, i: nat)
    requires a < i <= |run| && Carries(run, a, id)
    ensures Arrived(run, id, a, i) != {}
  {
    if i == a + 1 {
      assert run[a].m.value.index in Arrived(run, id, a, i);
    } else {
      ArrivedNonempty(run, id, a, i - 1);
    }
  }

  lemma {:induction false} NextStep(run: seq<Input>, id: nat, data: Bytes, a: nat, i: nat)
    requires a < i < |run| && CHUNK < |data| <= MAX_DATAGRAM && Carries(run, a, id)
    requires Progress(After(run[..i]), id, data, run[a].now, Arrived(run, id, a, i))
    requires Arrived(run, id, a, i) < All(data) && Own(run, id, data, i) && Undisturbed(run, id, a, i)
    ensures Answered(run, id, data, a, i)
  {
    var s, x := After(run[..i]), run[i];
    if Carries(run, i, id) {
      ArrivedNonempty(run, id, a, i);
      ReceiveOwn(s, id, data, x.m.value.index, x.now, x.victim, run[a].now, Arrived(run, id, a, i));
    } else {
      OtherKeeps(s, id, x.m, x.now, x.victim);
      assert Arrived(run, id, a, i + 1) == Arrived(run, id, a, i);
    }
  }

  lemma {:induction false} StillHeld(run: seq<Input>, id: nat, data: Bytes, a: nat, i: nat)
    requires a < i <= |run| && Answered(run, id, data, a, i - 1) && Arrived(run, id, a, i) != All(data)
    ensures Progress(After(run[..i]), id, data, run[a].now, Arrived(run, id, a, i))
  {
    AfterNext(run, i - 1);
  }

  lemma {:induction false} OneMore(run: seq<Input>, id: nat, data: Bytes, a: nat, i: nat)
    requires a < i < |run| && CHUNK < |data| <= MAX_DATAGRAM && Carries(run, a, id)
    requires Own(run, id, data, i) && Undisturbed(run, id, a, i) && Arrived(run, id, a, i) < All(data)
    requires Answered(run, id, data, a, i - 1)
    ensures Answered(run, id, data, a, i)
  {
    StillHeld(run, id, data, a, i);
    NextStep(run, id, data, a, i);
  }

  // From the fragment that starts id's assembly: as long as some fragment has not arrived, the datagram is
  // held with exactly what arrived; the fragment that arrives last delivers it, in that very call.
  lemma {:induction false} DeliveredOnLast(run: seq<Input>, id: nat, data: Bytes, a: nat, i: nat)
    requires a <= i < |run| && CHUNK < |data| <= MAX_DATAGRAM
    requires Starts(run, a) && Carries(run, a, id)
    requires Pure(run, id, data, a, i + 1) && Calm(run, id, a, i + 1)
    requires Arrived(run, id, a, i) != All(data)
    ensures Answered(run, id, data, a, i)
    decreases i
  {
    assert Own(run, id, data, i);
    if i == a {
      StartStep(run, id, data, a);
    } else {
      assert Undisturbed(run, id, a, i);
      ArrivedBefore(run, id, data, a, i);
      DeliveredOnLast(run, id, data, a, i - 1);
      OneMore(run, id, data, a, i);
    }
  }

  lemma {:induction false} ArrivedBefore(run: seq<Input>, id: nat, data: Bytes, a: nat, i: nat)
    requires a < i <= |run| && Pure(run, id, data, a, i) && Arrived(run, id, a, i) != All(data)
    ensures Arrived(run, id, a, i) < All(data) && Arrived(run, id, a, i - 1) != All(data)
  {
    ArrivedWithin(run, id, data, a, i);
  }

  // A datagram of one fragment is delivered by that fragment alone, whatever the state.
  lemma {:induction false} SingleDelivered(s: Table, id: nat, data: Bytes, now: int, victim: nat)
    requires |data| <= CHUNK && id < ID_SPACE
    ensures Receive(s, Decode(Encode(FragmentOf(id, data, 0))), now, victim) == (Live(s, now), Some(data))
  {
    FragmentProper(id, data, 0);
    WholeSlice(data);
    DecodeOfEncode(FragmentOf(id, data, 0));
  }

  /* Capacity */

  // If this call evicts, it evicts an assembly with the least expiry.
  ghost predicate Fair(s: Table, m: Option<Fragment>, now: int, victim: nat) {
    Multi(m) && m.value.id !in Live(s, now) && |Live(s, now)| >= MAX_ASSEMBLIES ==> Soonest(Live(s, now), victim)
  }

  lemma {:induction false} RoomSize(live: Table, id: nat, victim: nat)
    requires |live| <= MAX_ASSEMBLIES && (id !in live && |live| >= MAX_ASSEMBLIES ==> victim in live)
    ensures var room := Room(live, id, victim); |room| <= MAX_ASSEMBLIES && (id !in live ==> |room| < MAX_ASSEMBLIES)
  {
    if id !in live && |live| >= MAX_ASSEMBLIES {
      assert victim !in (live - {victim}).Keys && (live - {victim}).Keys < live.Keys by { assert victim in live.Keys; }
      SmallerMap(live - {victim}, live);
    }
  }

  lemma {:induction false} TakeSize(s: Table, p: Assembly, f: Fragment)
    requires |s| <= MAX_ASSEMBLIES && (f.id !in s ==> |s| < MAX_ASSEMBLIES)
    ensures |Take(s, p, f).0| <= MAX_ASSEMBLIES
  {
    var t := Take(s, p, f).0;
    if f.id in t {
      PutSize(s, f.id, t[f.id]);
    } else {
      SmallerMap(s - {f.id}, s);
    }
  }

  lemma {:induction false} ReceiveSize(s: Table, m: Option<Fragment>, now: int, victim: nat)
    requires |s| <= MAX_ASSEMBLIES && Fair(s, m, now, victim)
    ensures |Receive(s, m, now, victim).0| <= MAX_ASSEMBLIES
  {
    var live := Live(s, now);
    SmallerMap(live, s);
    if m.Some? && Count(m.value.size) != 1 {
      var f := m.value;
      var room := Room(live, f.id, victim);
      RoomSize(live, f.id, victim);
      if f.id in room { assert f.id in live; }
      TakeSize(room, Find(room, f, now), f);
    }
  }

  // Only choices that scanning the table can make.
  ghost predicate AllFair(run: seq<Input>) {
    forall i :: 0 <= i < |run| ==> Fair(After(run[..i]), run[i].m, run[i].now, run[i].victim)
  }

  lemma {:induction false} NextSize(run: seq<Input>, n: nat)
    requires n < |run| && |After(run[..n])| <= 8 && Fair(After(run[..n]), run[n].m, run[n].now, run[n].victim)
    ensures |After(run[..n + 1])| <= 8
  {
    AfterNext(run, n);
    ReceiveSize(After(run[..n]), run[n].m, run[n].now, run[n].victim);
  }

  lemma {:induction false} AtMostEight(run: seq<Input>, n: nat)
    requires AllFair(run) && n <= |run|
    ensures |After(run[..n])| <= 8
  {
    if n > 0 {
      AtMostEight(run, n - 1);
      NextSize(run, n - 1);
    }
  }

  /* Eviction */

  // Assembly id, held after n steps, was started by step c.
  ghost predicate StartedBy(run: seq<Input>, n: nat, id: nat, c: nat)
    requires n <= |run|
  {
    && c < n && Starts(run, c) && run[c].m.value.id == id
    && id in After(run[..n]) && After(run[..n])[id].expires == run[c].now + LIFETIME
  }

  lemma {:induction false} TakeExpiry(s: Table, p: Assembly, f: Fragment, id: nat)
    requires id in Take(s, p, f).0
    ensures Take(s, p, f).0[id].expires == if id == f.id then p.expires else s[id].expires
    ensures id != f.id ==> id in s
  {
  }

  // A step keeps an assembly's expiry, or starts it.
  lemma {:induction false} KeptOrStarted(s: Table, m: Option<Fragment>, now: int, victim: nat, id: nat)
    requires id in Receive(s, m, now, victim).0
    ensures var e := Receive(s, m, now, victim).0[id].expires;
            || (id in s && e == s[id].expires && now < e)
            || (Multi(m) && m.value.id == id && !Alive(s, id, now) && e == now + LIFETIME)
  {
    if m.Some? && Count(m.value.size) != 1 {
      var room := Room(Live(s, now), m.value.id, victim);
      TakeExpiry(room, Find(room, m.value, now), m.value, id);
    }
  }

  lemma {:induction false} BackOne(run: seq<Input>, n: nat, id: nat)
    requires 0 < n <= |run| && id in After(run[..n])
    ensures || (id in After(run[..n - 1]) && After(run[..n])[id].expires == After(run[..n - 1])[id].expires)
            || StartedBy(run, n, id, n - 1)
  {
    AfterNext(run, n - 1);
    KeptOrStarted(After(run[..n - 1]), run[n - 1].m, run[n - 1].now, run[n - 1].victim, id);
  }

  lemma {:induction false} HeldWasStarted(run: seq<Input>, n: nat, id: nat) returns (c: nat)
    requires n <= |run| && id in After(run[..n])
    ensures StartedBy(run, n, id, c)
  {
    BackOne(run, n, id);
    if StartedBy(run, n, id, n - 1) {
      c := n - 1;
    } else {
      c := HeldWasStarted(run, n - 1, id);
    }
  }

  // Assemblies start at strictly increasing times.
  ghost predicate StartsIncrease(run: seq<Input>) {
    forall i, j :: 0 <= i < j < |run| && Starts(run, i) && Starts(run, j) ==> run[i].now < run[j].now
  }

  // id was started before k.
  ghost predicate StartedBefore(run: seq<Input>, n: nat, id: nat, m: nat, k: nat)
    requires n <= |run| && m <= |run|
  {
    exists c: nat, d: nat :: c < d && StartedBy(run, n, id, c) && StartedBy(run, m, k, d)
  }

  // What an evicting step leaves: the victim gone, the other seven as they were, and the new assembly.
  lemma {:induction false} EvictionLeaves(s: Table, f: Fragment, now: int, victim: nat)
    requires |Live(s, now)| == MAX_ASSEMBLIES && victim in Live(s, now) && f.id !in Live(s, now) && f.size > CHUNK
    ensures var t := Receive(s, Some(f), now, victim).0;
            && |t| == MAX_ASSEMBLIES && victim !in t && f.id in t
            && forall k :: k in t && k != f.id ==> k in Live(s, now) && t[k] == Live(s, now)[k]
  {
    var live := Live(s, now);
    var room: Table := Room(live, f.id, victim);
    var p := Begin(f.size, now);
    var t := Take(room, p, f).0;
    assert t == room[f.id := t[f.id]];
    PutSize(room, f.id, t[f.id]);
    PutSize(room, victim, live[victim]);
    assert room[victim := live[victim]] == live;
  }

  lemma {:induction false} LaterStart(run: seq<Input>, n: nat, id: nat, c: nat, m: nat, k: nat, d: nat)
    requires StartsIncrease(run) && n <= m <= |run| && StartedBy(run, n, id, c) && StartedBy(run, m, k, d) && id != k
    requires After(run[..n])[id].expires <= After(run[..m])[k].expires
    ensures StartedBefore(run, n, id, m, k)
  {
  }

  // An assembly is evicted only when eight that started after it are held.
  lemma {:induction false} EvictedByEight(run: seq<Input>, i: nat, id: nat)
    requires AllFair(run) && StartsIncrease(run) && i < |run| && Evicts(run, i, id)
    ensures |At(run, i).0| == 8 && id !in At(run, i).0
    ensures forall k :: k in At(run, i).0 ==> StartedBefore(run, i, id, i + 1, k)
  {
    var s, x := After(run[..i]), run[i];
    AtMostEight(run, i);
    SmallerMap(Live(s, x.now), s);
    EvictionLeaves(s, x.m.value, x.now, id);
    AfterNext(run, i);
    var c := HeldWasStarted(run, i, id);
    forall k | k in At(run, i).0 ensures StartedBefore(run, i, id, i + 1, k) {
      var d := HeldWasStarted(run, i + 1, k);
      EvictedSooner(run, i, id, k, c, d);
      LaterStart(run, i, id, c, i + 1, k, d);
    }
  }

  lemma {:induction false} EvictedSooner(run: seq<Input>, i: nat, id: nat, k: nat, c: nat, d: nat)
    requires AllFair(run) && StartsIncrease(run) && i < |run| && Evicts(run, i, id)
             && |Live(After(run[..i]), run[i].now)| == MAX_ASSEMBLIES
    requires StartedBy(run, i, id, c) && StartedBy(run, i + 1, k, d) && k in At(run, i).0
    ensures id != k && After(run[..i])[id].expires <= After(run[..i + 1])[k].expires
  {
    var s, x := After(run[..i]), run[i];
    AfterNext(run, i);
    EvictionLeaves(s, x.m.value, x.now, id);
    if k == x.m.value.id {
      KeptOrStarted(s, x.m, x.now, x.victim, k);
      assert run[c].now < run[i].now;
    } else {
      assert Fair(s, x.m, x.now, x.victim);
      assert Soonest(Live(s, x.now), id);
    }
  }

  /* Whatever arrives */

  // A fragment of an assembly held: one of another size or seen before changes nothing, any other joins it.
  lemma {:induction false} JoinsExactly(s: Table, f: Fragment, now: int, victim: nat)
    requires AllSized(s) && f.index < 64 && f.size > 1056 && Alive(s, f.id, now)
    ensures var (t, out) := Receive(s, Some(f), now, victim);
            var p := s[f.id];
            if p.size != f.size || p.seen[f.index] then t == Live(s, now) && out == None
            else
              var chunks := p.chunks[f.index := f.chunk];
              if p.remaining == 1 then t == Live(s, now) - {f.id} && out == Some(Joined(chunks))
              else
                && out == None
                && t == Live(s, now)[f.id := Assembly(chunks, p.size, p.seen[f.index := true], p.remaining - 1,
                                                      p.expires)]
  {
    var live := Live(s, now);
    assert live[f.id := live[f.id]] == live;
  }

  // A fragment of an assembly not held starts one, for two seconds; with eight held, one of them makes room.
  lemma {:induction false} StartsExactly(s: Table, f: Fragment, now: int, victim: nat)
    requires f.index < 64 && f.size > 1056 && !Alive(s, f.id, now)
    ensures var (t, out) := Receive(s, Some(f), now, victim);
            var room := if |Live(s, now)| >= 8 then Live(s, now) - {victim} else Live(s, now);
            && out == None && f.id in t && t == room[f.id := t[f.id]]
            && |t[f.id].chunks| == 64 && |t[f.id].seen| == 64
            && (forall k :: 0 <= k < 64 ==>
                  t[f.id].seen[k] == (k == f.index) && t[f.id].chunks[k] == if k == f.index then f.chunk else [])
            && t[f.id].size == f.size && t[f.id].expires == now + 2 * SECOND
            && 1056 * t[f.id].remaining < f.size <= 1056 * (t[f.id].remaining + 1)
  {
    var room: Table := Room(Live(s, now), f.id, victim);
    var p := Begin(f.size, now);
    assert Take(room, p, f).0 == room[f.id := Add(p, f)];
  }

  // A frame that is dropped, or holds a whole datagram, leaves what is held and not yet over.
  lemma {:induction false} PassesExactly(s: Table, m: Option<Fragment>, now: int, victim: nat)
    requires m.Some? ==> m.value.size <= 1056
    ensures Receive(s, m, now, victim) == (Live(s, now), if m.Some? then Some(m.value.chunk) else None)
    ensures forall id :: id in Live(s, now) <==> Alive(s, id, now)
    ensures forall id :: id in Live(s, now) ==> Live(s, now)[id] == s[id]
  {
  }

  ghost predicate AllSized(s: Table) { forall id :: id in s ==> |s[id].chunks| == |s[id].seen| == 64 }

  // Nothing is held for two seconds: whatever is held after a call was started less than two seconds before it.
  lemma {:induction false} HeldBriefly(run: seq<Input>, n: nat, id: nat) returns (c: nat)
    requires 0 < n <= |run| && id in After(run[..n])
    ensures c < n && run[c].m.Some? && run[c].m.value.id == id && run[c].m.value.size > 1056
    ensures run[n - 1].now < run[c].now + 2 * SECOND
  {
    c := HeldWasStarted(run, n, id);
    AfterNext(run, n - 1);
    KeptOrStarted(After(run[..n - 1]), run[n - 1].m, run[n - 1].now, run[n - 1].victim, id);
  }
}
