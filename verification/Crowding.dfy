/** A crowd of senders pushes one of them out of a full table, which then sends twice its burst at one instant. */
module Crowding {
  import opened Bytes
  import opened Wire
  import opened Collections
  import opened Bucket
  import opened Machine
  import opened Handshake
  import opened Runs
  import opened Effects
  import opened Rates
  import opened Senders
  import opened Completeness
  import C = Client

  /* A hello that anyone can send */

  function Sender(n: nat): Key { BigEndian(n, 32) }

  // Well formed and in time, addressed to this server, with a tag that names nobody.
  function StrayPacket(cfg: Config, now: int, source: Key): Bytes {
    Frame(CLIENT_HELLO,
          HelloBody(ZERO_KEY, Keys(source, Sender(1)), ZERO_KEY, cfg.Id(), C.Stamp(now), Zeros(KEM_KEY_SIZE))
          + Zeros(SIGNATURE_SIZE))
  }

  function Stray(cfg: Config, now: int, source: Key, victim: Key): Delivery {
    Delivery(source, StrayPacket(cfg, now, source), now, [], Draw([], ZERO_KEY, false),
             Choice(victim, ZERO_KEY, Zeros(48)))
  }

  ghost predicate IsStray(e: Event, now: int) {
    && e.Handle? && e.now == now && e.msg.Hello? && e.msg.sound && e.msg.peer.None? && Timely(e.msg.stamp, now)
  }

  lemma {:induction false} StrayReads(cfg: Config, now: int, source: Key, victim: Key)
    requires -0x8000_0000_0000_0000 <= Unix(now) < 0x8000_0000_0000_0000
    ensures IsStray(EventOf(cfg, Stray(cfg, now, source, victim)), now)
  {
    var keys := Keys(source, Sender(1));
    var hello := HelloBody(ZERO_KEY, keys, ZERO_KEY, cfg.Id(), C.Stamp(now), Zeros(KEM_KEY_SIZE));
    ParseOfFrame(CLIENT_HELLO, hello + Zeros(SIGNATURE_SIZE));
    HelloFields(ZERO_KEY, keys, ZERO_KEY, cfg.Id(), C.Stamp(now), Zeros(KEM_KEY_SIZE), Zeros(SIGNATURE_SIZE));
    StampReads(now);
    SenderNumber(0);
    SenderNumber(1);
    ZeroIsFirst();
  }

  lemma {:induction false} ManyKeys(n: nat)
    requires n >= 2
    ensures Pow256(n) >= 0x1_0000
  {
    Pow256Values();
    if n > 2 { ManyKeys(n - 1); }
  }

  lemma {:induction false} SenderNumber(n: nat)
    requires n <= MAX_TABLE
    ensures Unsigned(Sender(n)) == n
  {
    ManyKeys(32);
    UnsignedBigEndian(n, 32);
  }

  lemma {:induction false} ZeroIsFirst()
    ensures Sender(1) != ZERO_KEY
  {
    assert Sender(1)[31] == 1;
  }

  /* What it does to a server that has seen nothing else */

  // Only the sender table is in use, and every bucket in it was charged now.
  ghost predicate Crowded(s: State, now: int) {
    s == START.(limits := s.limits) && AllNow(s.limits, now)
  }

  ghost predicate AllNow(t: map<Key, Bucket>, now: int) { forall k :: k in t ==> t[k].start == now }

  function Entering(t: map<Key, Bucket>, now: int, source: Key, victim: Key): (map<Key, Bucket>, bool) {
    Charge(t, source, now, Single, |t| >= MAX_TABLE, victim)
  }

  lemma {:induction false} NothingPruned(s: State, now: int)
    requires Crowded(s, now)
    ensures PruneState(s, now) == s
  {
  }

  lemma {:induction false} StrayStep(s: State, e: Event)
    requires IsStray(e, e.now) && Crowded(s, e.now)
    ensures var (t, ok) := Entering(s.limits, e.now, e.source, e.choice.sender);
            Step(s, e).state == START.(limits := t) && (ok <==> SenderAdmitted(Step(s, e).stage))
  {
    NothingPruned(s, e.now);
    StepHello(s, e);
  }

  lemma {:induction false} StrayFeasible(s: State, e: Event)
    requires IsStray(e, e.now) && Crowded(s, e.now)
    requires e.source !in s.limits && |s.limits| >= MAX_TABLE ==> e.choice.sender in s.limits
    ensures Feasible(s, e)
  {
    NothingPruned(s, e.now);
  }

  lemma {:induction false} Newcomer(t: map<Key, Bucket>, now: int, k: Key, victim: Key)
    requires k !in t && now != ZERO_TIME
    ensures Entering(t, now, k, victim)
         == ((if |t| >= MAX_TABLE then t - {victim} else t)[k := Bucket(now, 3.0)], true)
  {
  }

  lemma {:induction false} Returning(t: map<Key, Bucket>, now: int, k: Key, victim: Key)
    requires k in t && t[k].start == now != ZERO_TIME && t[k].tokens >= 1.0
    ensures Entering(t, now, k, victim) == (t[k := Bucket(now, t[k].tokens - 1.0)], true)
  {
  }

  /* The run: sender 0 four times, senders 1 to 4096 once each, sender 0 four times again */

  const FILLED := 4 + MAX_TABLE
  const STEPS := FILLED + 4

  function Visitor(n: nat): nat { if 4 <= n < FILLED then n - 3 else 0 }

  // The last newcomer pushes sender 0 out, and sender 0 pushes sender 1 out when it comes back.
  function Victim(n: nat): Key { if n < FILLED then Sender(0) else Sender(1) }

  function Visit(cfg: Config, now: int, n: nat): Event {
    EventOf(cfg, Stray(cfg, now, Sender(Visitor(n)), Victim(n)))
  }

  function Crowd(cfg: Config, now: int, n: nat): (run: seq<Event>)
    ensures |run| == n && forall i :: 0 <= i < n ==> run[i] == Visit(cfg, now, i)
  {
    if n == 0 then [] else Crowd(cfg, now, n - 1) + [Visit(cfg, now, n - 1)]
  }

  // So many senders, numbered from 0.
  ghost predicate Seated(t: map<Key, Bucket>, n: nat) {
    |t| == n && Sender(0) in t && Sender(1) in t && forall k :: k in t ==> Unsigned(k) < n
  }

  // The sender table before step n.
  ghost predicate Table(t: map<Key, Bucket>, now: int, n: nat) {
    if n == 0 then t == map[]
    else if n <= 4 then t == map[Sender(0) := Bucket(now, (4 - n) as real)]
    else if n < FILLED then Seated(t, n - 3)
    else if n == FILLED then |t| == MAX_TABLE && Sender(0) !in t && Sender(1) in t
    else Sender(0) in t && t[Sender(0)] == Bucket(now, (STEPS - n) as real)
  }

  // Step n's sender passes, the table becomes that before step n + 1, and a victim needed is there.
  ghost predicate Enters(t: map<Key, Bucket>, now: int, n: nat) {
    var (u, ok) := Entering(t, now, Sender(Visitor(n)), Victim(n));
    && ok && AllNow(u, now) && Table(u, now, n + 1)
    && (Sender(Visitor(n)) !in t && |t| >= MAX_TABLE ==> Victim(n) in t)
  }

  lemma {:induction false} FirstBurst(t: map<Key, Bucket>, now: int, n: nat)
    requires n < 4 && now != ZERO_TIME && Table(t, now, n)
    ensures Enters(t, now, n)
  {
    if n == 0 { Newcomer(t, now, Sender(0), Victim(n)); } else { Returning(t, now, Sender(0), Victim(n)); }
  }

  lemma {:induction false} Seat(t: map<Key, Bucket>, now: int, n: nat)
    requires 2 <= n < MAX_TABLE && Seated(t, n)
    ensures Sender(n) !in t && Seated(t[Sender(n) := Bucket(now, 3.0)], n + 1)
  {
    SenderNumber(n);
    PutSize(t, Sender(n), Bucket(now, 3.0));
  }

  lemma {:induction false} FirstSeats(t: map<Key, Bucket>, now: int)
    requires t == map[Sender(0) := Bucket(now, 0.0)]
    ensures Sender(1) !in t && |t| == 1 && Seated(t[Sender(1) := Bucket(now, 3.0)], 2)
  {
    SenderNumber(0);
    SenderNumber(1);
    PutSize(t, Sender(1), Bucket(now, 3.0));
  }

  lemma {:induction false} Filling(t: map<Key, Bucket>, now: int, n: nat)
    requires 4 <= n < FILLED - 1 && now != ZERO_TIME && AllNow(t, now) && Table(t, now, n)
    ensures Enters(t, now, n)
  {
    if n == 4 { FirstSeats(t, now); } else { Seat(t, now, n - 3); }
    Newcomer(t, now, Sender(n - 3), Victim(n));
  }

  // Sender 4096 finds the table full and takes the place of sender 0.
  lemma {:induction false} PushedOut(t: map<Key, Bucket>, now: int)
    requires now != ZERO_TIME && AllNow(t, now) && Seated(t, MAX_TABLE)
    ensures Enters(t, now, FILLED - 1)
  {
    var k, room := Sender(MAX_TABLE), t - {Sender(0)};
    SenderNumber(MAX_TABLE);
    SenderNumber(0);
    SenderNumber(1);
    Newcomer(t, now, k, Sender(0));
    PutSize(room, Sender(0), t[Sender(0)]);
    assert room[Sender(0) := t[Sender(0)]] == t;
    PutSize(room, k, Bucket(now, 3.0));
  }

  lemma {:induction false} SecondBurst(t: map<Key, Bucket>, now: int, n: nat)
    requires FILLED <= n < STEPS && now != ZERO_TIME && AllNow(t, now) && Table(t, now, n)
    ensures Enters(t, now, n)
  {
    if n == FILLED { Newcomer(t, now, Sender(0), Victim(n)); } else { Returning(t, now, Sender(0), Victim(n)); }
    SenderNumber(0);
    SenderNumber(1);
  }

  lemma {:induction false} EveryStep(t: map<Key, Bucket>, now: int, n: nat)
    requires n < STEPS && now != ZERO_TIME && AllNow(t, now) && Table(t, now, n)
    ensures Enters(t, now, n)
  {
    if n < 4 {
      FirstBurst(t, now, n);
    } else if n < FILLED - 1 {
      Filling(t, now, n);
    } else if n == FILLED - 1 {
      PushedOut(t, now);
    } else {
      SecondBurst(t, now, n);
    }
  }

  ghost predicate IsVisit(e: Event, now: int, n: nat) {
    IsStray(e, now) && e.source == Sender(Visitor(n)) && e.choice.sender == Victim(n)
  }

  ghost predicate Before(s: State, now: int, n: nat) { Crowded(s, now) && Table(s.limits, now, n) }

  lemma {:induction false} VisitStep(s: State, e: Event, now: int, n: nat)
    requires n < STEPS && now != ZERO_TIME && Before(s, now, n) && IsVisit(e, now, n)
    ensures Before(Step(s, e).state, now, n + 1) && SenderAdmitted(Step(s, e).stage) && Feasible(s, e)
  {
    EveryStep(s.limits, now, n);
    StrayStep(s, e);
    StrayFeasible(s, e);
  }

  /* For any step function that does this */

  ghost predicate Serves(step: StepFn, now: int) {
    forall s: State, e: Event, n: nat {:trigger Before(s, now, n), step(s, e)} ::
      n < STEPS && Before(s, now, n) && IsVisit(e, now, n) ==>
      Before(step(s, e).state, now, n + 1) && SenderAdmitted(step(s, e).stage) && Feasible(s, e)
  }

  ghost predicate Visits(run: seq<Event>, now: int) {
    |run| == STEPS && forall i: nat :: i < |run| ==> IsVisit(run[i], now, i)
  }

  lemma {:induction false} Reaches(step: StepFn, run: seq<Event>, now: int, n: nat)
    requires Serves(step, now) && Visits(run, now) && n <= STEPS
    ensures Before(After(step, run[..n]), now, n)
  {
    if n > 0 {
      Reaches(step, run, now, n - 1);
      AfterNext(step, run, n - 1);
    }
  }

  ghost function Hits(n: nat): nat { if n <= 4 then n else if n <= FILLED then 4 else n - MAX_TABLE }

  lemma {:induction false} OnlyFirst(e: Event, now: int, n: nat, stage: Stage)
    requires n < STEPS && IsVisit(e, now, n) && SenderAdmitted(stage)
    ensures SenderMeter(Sender(0)).hits(e, stage) <==> n < 4 || n >= FILLED
  {
    SenderNumber(0);
    SenderNumber(Visitor(n));
  }

  lemma {:induction false} CountHits(step: StepFn, run: seq<Event>, now: int, n: nat)
    requires Serves(step, now) && Visits(run, now) && n <= STEPS
    ensures Count(step, SenderMeter(Sender(0)), run, 0, n) == Hits(n)
  {
    if n > 0 {
      CountHits(step, run, now, n - 1);
      Reaches(step, run, now, n - 1);
      OnlyFirst(run[n - 1], now, n - 1, At(step, run, n - 1).stage);
    }
  }

  lemma {:induction false} StepServes(now: int)
    requires now != ZERO_TIME
    ensures Serves(Step, now)
  {
    forall s: State, e: Event, n: nat | n < STEPS && Before(s, now, n) && IsVisit(e, now, n)
      ensures Before(Step(s, e).state, now, n + 1) && SenderAdmitted(Step(s, e).stage) && Feasible(s, e)
    {
      VisitStep(s, e, now, n);
    }
  }

  lemma {:induction false} CrowdVisits(cfg: Config, now: int)
    requires -0x8000_0000_0000_0000 <= Unix(now) < 0x8000_0000_0000_0000
    ensures Visits(Crowd(cfg, now, STEPS), now)
  {
    var run := Crowd(cfg, now, STEPS);
    forall i: nat | i < |run| ensures IsVisit(run[i], now, i) {
      StrayReads(cfg, now, Sender(Visitor(i)), Victim(i));
      assert run[i] == Visit(cfg, now, i);
    }
  }

  lemma {:induction false} CrowdPossible(step: StepFn, run: seq<Event>, now: int)
    requires Serves(step, now) && Visits(run, now)
    ensures Possible(step, run)
  {
    forall i | 0 <= i < |run| ensures Feasible(After(step, run[..i]), run[i]) {
      Reaches(step, run, now, i);
      assert IsVisit(run[i], now, i);
      assert Before(step(After(step, run[..i]), run[i]).state, now, i + 1);
    }
  }

  // A run at one instant, with choices the code can make, in which eight hellos of sender 0 pass its bucket of four.
  ghost predicate Doubles(step: StepFn, run: seq<Event>, now: int) {
    && Clocked(run) && Possible(step, run) && (forall i :: 0 <= i < |run| ==> run[i].now == now)
    && Count(step, SenderMeter(Sender(0)), run, 0, |run|) == 8
  }

  lemma {:induction false} CrowdDoubles(step: StepFn, run: seq<Event>, now: int)
    requires Serves(step, now) && Visits(run, now) && now != ZERO_TIME
    ensures Doubles(step, run, now)
  {
    forall i | 0 <= i < |run| ensures run[i].now == now { assert IsVisit(run[i], now, i); }
    CrowdPossible(step, run, now);
    CountHits(step, run, now, STEPS);
  }

  // Against any server and at any instant there is such a run of packets.
  lemma {:induction false} EvictionDoubles(cfg: Config, now: int)
    requires -0x8000_0000_0000_0000 <= Unix(now) < 0x8000_0000_0000_0000 && now != ZERO_TIME
    ensures Doubles(Step, Crowd(cfg, now, STEPS), now)
  {
    CrowdVisits(cfg, now);
    StepServes(now);
    CrowdDoubles(Step, Crowd(cfg, now, STEPS), now);
  }
}
