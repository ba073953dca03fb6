/** Token buckets keyed by sender or identity: refill, charging, pruning and oldest-first eviction. */
module Bucket {
  import opened Collections

  // Time is one integer clock in nanoseconds since the Unix epoch; Go's zero time is 1 January of year 1.
  const SECOND: int := 1_000_000_000
  const ZERO_TIME: int := -62_135_596_800 * 1_000_000_000

  // Tokens are reals where the code keeps a float64.
  datatype Bucket = Bucket(start: int, tokens: real)

  // What Go's map lookup yields for a missing key.
  const NO_BUCKET: Bucket := Bucket(ZERO_TIME, 0.0)

  function Seconds(d: int): real { d as real / 1_000_000_000.0 }

  // The two bucket sizes in use: 4 per sender or identity, 64 shared. A bucket refills in one second.
  datatype Limit = Single | Shared {
    function Max(): real { if Single? then 4.0 else 64.0 }
    function Earned(d: int): real { if Single? then Seconds(d) * 4.0 else Seconds(d) * 64.0 }
  }

  function Min(a: real, b: real): real { if a <= b then a else b }

  function Refill(b: Bucket, now: int, limit: Limit): Bucket {
    if b.start == ZERO_TIME then Bucket(now, limit.Max())
    else if now > b.start then Bucket(now, Min(limit.Max(), b.tokens + limit.Earned(now - b.start)))
    else b
  }

  function Allow(b: Bucket, now: int, limit: Limit): (Bucket, bool) {
    var r := Refill(b, now, limit);
    if r.tokens < 1.0 then (r, false) else (r.(tokens := r.tokens - 1.0), true)
  }

  function Get<K>(table: map<K, Bucket>, k: K): Bucket {
    if k in table then table[k] else NO_BUCKET
  }

  function Prune<K>(table: map<K, Bucket>, now: int): map<K, Bucket> {
    table - (set k | k in table && now - table[k].start > SECOND)
  }

  // victim may be removed by evictOldest: no entry started earlier.
  predicate Oldest<K>(table: map<K, Bucket>, victim: K) {
    victim in table && forall k :: k in table ==> table[victim].start <= table[k].start
  }

  // One rate-table access: make room for a new key in a full table, then charge its bucket.
  function Charge<K>(table: map<K, Bucket>, k: K, now: int, limit: Limit, full: bool, victim: K)
    : (map<K, Bucket>, bool)
  {
    var room := if full && k !in table then table - {victim} else table;
    var (b, ok) := Allow(Get(room, k), now, limit);
    (room[k := b], ok)
  }

  /* Tokens a bucket holds at time t. */

  function Level(b: Bucket, t: int, limit: Limit): real { Refill(b, t, limit).tokens }

  predicate Sound(b: Bucket, t: int, limit: Limit) {
    b.start != ZERO_TIME && b.start <= t && 0.0 <= b.tokens <= limit.Max()
  }

  ghost predicate SoundTable<K>(table: map<K, Bucket>, t: int, limit: Limit) {
    forall k :: k in table ==> Sound(table[k], t, limit)
  }

  // Refilling is additive in time, so waiting in two steps or in one gives the same tokens.
  lemma {:induction false} LevelLater(b: Bucket, t: int, u: int, limit: Limit)
    requires t <= u
    requires b == NO_BUCKET || Sound(b, t, limit)
    ensures Level(b, u, limit) == Min(limit.Max(), Level(b, t, limit) + limit.Earned(u - t))
    ensures 0.0 <= Level(b, t, limit) <= limit.Max()
  {
  }

  lemma {:induction false} AllowSound(b: Bucket, now: int, limit: Limit)
    requires now != ZERO_TIME
    requires b == NO_BUCKET || Sound(b, now, limit)
    ensures var (c, ok) := Allow(b, now, limit);
            && Sound(c, now, limit) && c.start == now
            && c.tokens == Level(b, now, limit) - (if ok then 1.0 else 0.0)
            && (ok <==> Level(b, now, limit) >= 1.0)
            && Level(c, now, limit) == c.tokens
  {
  }

  // The tokens at t, in numbers: a new bucket is full, and 4 or 64 tokens come back every second up to that many.
  lemma {:induction false} LevelExactly(b: Bucket, t: int)
    ensures Level(b, t, Single) ==
            if b.start == ZERO_TIME then 4.0
            else if t <= b.start then b.tokens
            else if b.tokens + 4.0 * (t - b.start) as real / 1_000_000_000.0 > 4.0 then 4.0
            else b.tokens + 4.0 * (t - b.start) as real / 1_000_000_000.0
    ensures Level(b, t, Shared) ==
            if b.start == ZERO_TIME then 64.0
            else if t <= b.start then b.tokens
            else if b.tokens + 64.0 * (t - b.start) as real / 1_000_000_000.0 > 64.0 then 64.0
            else b.tokens + 64.0 * (t - b.start) as real / 1_000_000_000.0
  {
  }

  // A call leaves the refilled bucket, less a token if it is allowed, charged now unless the clock is behind it.
  lemma {:induction false} AllowExactly(b: Bucket, now: int, limit: Limit)
    ensures var (c, ok) := Allow(b, now, limit);
            && (ok <==> Level(b, now, limit) >= 1.0)
            && c.tokens == Level(b, now, limit) - (if ok then 1.0 else 0.0)
            && c.start == if b.start == ZERO_TIME || now > b.start then now else b.start
  {
  }

  // Forgetting an idle bucket changes no later verdict: it would be full again.
  lemma {:induction false} PruneLevel<K>(table: map<K, Bucket>, now: int, k: K, t: int, limit: Limit)
    requires now <= t
    requires k in table ==> Sound(table[k], now, limit)
    ensures Level(Get(Prune(table, now), k), t, limit) == Level(Get(table, k), t, limit)
  {
  }

  lemma {:induction false} ChargeSound<K>(table: map<K, Bucket>, k: K, now: int, limit: Limit, full: bool, victim: K)
    requires now != ZERO_TIME && SoundTable(table, now, limit)
    ensures var t := Charge(table, k, now, limit, full, victim).0;
            && SoundTable(t, now, limit) && k in t && t[k].start == now
            && (forall j :: j in t && j != k ==> j in table && t[j] == table[j])
            && (!full ==> forall j :: j in table ==> j in t)
  {
    var room := if full && k !in table then table - {victim} else table;
    AllowSound(Get(room, k), now, limit);
  }

  // One access changes k's bucket only, and removes the victim only to make room for a key that is not there.
  lemma {:induction false} ChargeExactly<K>(table: map<K, Bucket>, k: K, now: int, limit: Limit, full: bool, victim: K)
    ensures var (t, ok) := Charge(table, k, now, limit, full, victim);
            && (forall j :: j in t <==> j == k || (j in table && !(full && k !in table && j == victim)))
            && (forall j :: j in t && j != k ==> t[j] == table[j])
            && (t[k], ok) == Allow(Get(table, k), now, limit)
  {
  }

  // Charging k moves k's tokens by one if it is allowed, and no other key's, unless that key is evicted.
  lemma {:induction false} ChargeMove<K>(table: map<K, Bucket>, k: K, j: K, now: int, full: bool, victim: K)
    requires now != ZERO_TIME && SoundTable(table, now, Single) && !(full && k !in table && victim == j && j in table)
    ensures var (t, ok) := Charge(table, k, now, Single, full, victim);
            Level(Get(t, j), now, Single) + (if ok && k == j then 1.0 else 0.0) == Level(Get(table, j), now, Single)
  {
    AllowSound(Get(table, k), now, Single);
  }

  lemma {:induction false} ChargeSize<K>(table: map<K, Bucket>, k: K, now: int, limit: Limit, victim: K, capacity: nat)
    requires |table| <= capacity && capacity > 0
    requires k !in table && |table| >= capacity ==> Oldest(table, victim)
    ensures |Charge(table, k, now, limit, |table| >= capacity, victim).0| <= capacity
  {
    var t := Charge(table, k, now, limit, |table| >= capacity, victim).0;
    var most := if k in table then table.Keys
                else if |table| >= capacity then table.Keys - {victim} + {k}
                else table.Keys + {k};
    assert t.Keys == most;
  }

  /* The shared budget pays for stamps: each stamp at or after any recorded time took one token of g. */

  // What the shared bucket can admit in a span of d nanoseconds.
  function Budget(d: int): real { Shared.Max() + Shared.Earned(d) }

  // Stamps are (key, time) pairs; those at or after t.
  ghost function Since<K>(stamps: set<(K, int)>, t: int): set<(K, int)> {
    set x | x in stamps && x.1 >= t
  }

  ghost predicate PaidFrom<K>(stamps: set<(K, int)>, g: Bucket, credit: real, t: int) {
    |Since(stamps, t)| as real + g.tokens + credit <= Budget(g.start - t)
  }

  // No stamp is later than the last charge, and from any earlier time on the budget covers all stamps made.
  ghost predicate Paid<K>(stamps: set<(K, int)>, g: Bucket, credit: real) {
    && (forall x :: x in stamps ==> x.1 <= g.start)
    && forall t {:trigger PaidFrom(stamps, g, credit, t)} :: t <= g.start ==> PaidFrom(stamps, g, credit, t)
  }

  lemma {:induction false} PaidSubset<K>(stamps: set<(K, int)>, kept: set<(K, int)>, g: Bucket, credit: real,
                                         less: real)
    requires Paid(stamps, g, credit) && kept <= stamps && less <= credit
    ensures Paid(kept, g, less)
  {
    forall t | t <= g.start
      ensures PaidFrom(kept, g, less, t)
    {
      assert PaidFrom(stamps, g, credit, t);
      Smaller(Since(kept, t), Since(stamps, t));
    }
  }

  // Charging the budget leaves one token of credit for every table it pays for.
  lemma {:induction false} PaidCharge<K>(stamps: set<(K, int)>, g: Bucket, now: int)
    requires now != ZERO_TIME
    requires g == NO_BUCKET || Sound(g, now, Shared)
    requires g == NO_BUCKET ==> stamps == {}
    requires Paid(stamps, g, 0.0)
    ensures var (c, ok) := Allow(g, now, Shared);
            && Sound(c, now, Shared) && c.start == now
            && Paid(stamps, c, if ok then 1.0 else 0.0)
            && (ok ==> c.tokens <= Shared.Max() - 1.0)
  {
    AllowSound(g, now, Shared);
    var (c, ok) := Allow(g, now, Shared);
    var credit := if ok then 1.0 else 0.0;
    forall t | t <= now
      ensures PaidFrom(stamps, c, credit, t)
    {
      if g == NO_BUCKET || g.start < t {
        assert Since(stamps, t) == {};
      } else {
        assert PaidFrom(stamps, g, 0.0, t);
      }
    }
  }

  // The credit buys one new or refreshed stamp.
  lemma {:induction false} PaidStamp<K>(stamps: set<(K, int)>, after: set<(K, int)>, g: Bucket, k: K)
    requires Paid(stamps, g, 1.0)
    requires after <= stamps + {(k, g.start)}
    ensures Paid(after, g, 0.0)
  {
    forall t | t <= g.start
      ensures PaidFrom(after, g, 0.0, t)
    {
      assert PaidFrom(stamps, g, 1.0, t);
      Smaller(Since(after, t), Since(stamps, t) + {(k, g.start)});
    }
  }

  // A table whose stamps all lie within `age` of the last charge holds no more than the budget admits.
  lemma {:induction false} PaidBound<K>(stamps: set<(K, int)>, g: Bucket, credit: real, age: nat)
    requires g.tokens >= 0.0
    requires Paid(stamps, g, credit)
    requires forall x :: x in stamps ==> g.start - x.1 <= age
    ensures |stamps| as real + credit <= Budget(age)
  {
    assert PaidFrom(stamps, g, credit, g.start - age);
    assert Since(stamps, g.start - age) == stamps;
  }

  lemma {:induction false} KeysWithin<K>(keys: set<K>, stamps: set<(K, int)>)
    requires forall k :: k in keys ==> exists x :: x in stamps && x.0 == k
    ensures |keys| <= |stamps|
  {
    if keys != {} {
      var k :| k in keys;
      var x :| x in stamps && x.0 == k;
      KeysWithin(keys - {k}, stamps - {x});
    }
  }
}
