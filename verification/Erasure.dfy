/** No entry is displaced as long as SHA-384 and the peer tags do not collide, so every entry that leaves is erased. */
module Erasure {
  import opened Bytes
  import opened Wire
  import opened Machine
  import opened Handshake
  import opened Runs
  import opened Effects
  import opened Completeness
  import opened Agreement
  import opened Packets
  import E = Entries
  import S = Sessions
  import C = Client

  // The accepted hello's transcript hash is that of an entry already there.
  ghost predicate Collides(stage: Stage, pending: map<Hash, Entry>) { stage.Accepted? && stage.hash in pending }

  // The step displaces an entry.
  ghost predicate Clashing(s: State, e: Event) {
    e.Handle? && Collides(Step(s, e).stage, PruneState(s, e.now).pending)
  }

  ghost predicate Clashed(run: seq<Event>) { exists j: nat :: j < |run| && Clashing(After(Step, run[..j]), run[j]) }

  ghost function OfferAt(cfg: Config, xs: seq<Input>, i: nat): Bytes
    requires HelloAt(xs, i)
  {
    OfferBytes(cfg, HelloIn(xs[i].d.packet), xs[i].d.draw)
  }

  // SHA-384 tells the delivered hellos' transcripts apart, and no two authorized identities share a tag.
  ghost predicate Innocent(cfg: Config, xs: seq<Input>) {
    && (forall i: nat, j: nat :: HelloAt(xs, i) && HelloAt(xs, j)
          && cfg.suite.sha384(OfferAt(cfg, xs, i)) == cfg.suite.sha384(OfferAt(cfg, xs, j))
          ==> OfferAt(cfg, xs, i) == OfferAt(cfg, xs, j))
    && (forall i: nat, j: nat :: HelloAt(xs, i) && HelloAt(xs, j) ==>
          TagsDistinct(cfg.suite, Ids(xs[i].d.auth) + Ids(xs[j].d.auth), HelloNonce(HelloIn(xs[i].d.packet))))
  }

  lemma {:induction false} AcceptedOffer(s: State, e: Event)
    requires Step(s, e).stage.Accepted?
    ensures e.Handle? && e.msg.Hello? && e.msg.offer.Some? && Step(s, e).stage.hash == e.msg.offer.value.hash
    ensures e.msg.peer.Some?
  {
    E.StepExplained(s, e);
  }

  // Equal transcript hashes come from one hello.
  lemma {:induction false} SameBytes(cfg: Config, xs: seq<Input>, i: nat, j: nat)
    requires Innocent(cfg, xs) && HelloAt(xs, i) && HelloAt(xs, j)
    requires cfg.suite.sha384(OfferAt(cfg, xs, i)) == cfg.suite.sha384(OfferAt(cfg, xs, j))
    ensures HelloIn(xs[i].d.packet) == HelloIn(xs[j].d.packet)
  {
    var d, f := xs[i].d, xs[j].d;
    var g, h := HelloIn(d.packet), HelloIn(f.packet);
    TranscriptInjective(g, cfg.Id(), cfg.keys, d.draw.nonce, Encapsulated(cfg, g, d.draw).1,
                        h, cfg.Id(), cfg.keys, f.draw.nonce, Encapsulated(cfg, h, f.draw).1);
  }

  lemma {:induction false} OfferHash(cfg: Config, d: Delivery)
    requires Interpret(cfg, d).Hello? && Interpret(cfg, d).offer.Some?
    ensures IsHello(d.packet)
    ensures Interpret(cfg, d).offer.value.hash == cfg.suite.sha384(OfferBytes(cfg, HelloIn(d.packet), d.draw))
  {
    HelloMeans(cfg, d);
  }

  // Two accepted deliveries with one transcript hash are deliveries of one replay key and stamp.
  lemma {:induction false} SameSource(cfg: Config, xs: seq<Input>, i: nat, j: nat)
    requires Innocent(cfg, xs) && i < |xs| && j < |xs| && xs[i].Deliver? && xs[j].Deliver?
    requires var m, n := Interpret(cfg, xs[i].d), Interpret(cfg, xs[j].d);
             && m.Hello? && n.Hello? && m.peer.Some? && n.peer.Some? && m.offer.Some? && n.offer.Some?
             && m.offer.value.hash == n.offer.value.hash
    ensures var m, n := Interpret(cfg, xs[i].d), Interpret(cfg, xs[j].d);
            m.replay == n.replay && m.stamp == n.stamp
  {
    OfferHash(cfg, xs[i].d);
    OfferHash(cfg, xs[j].d);
    assert HelloAt(xs, i) && HelloAt(xs, j);
    SameBytes(cfg, xs, i, j);
    SameReading(cfg, xs[i].d, xs[j].d);
  }

  // No accepted hello's transcript hash is in the table already, Close or not.
  lemma {:induction false} NeverDisplaces(cfg: Config, xs: seq<Input>, j: nat)
    requires OwnSteps(xs) && Clocked(Lowered(cfg, xs)) && Innocent(cfg, xs) && j < |xs|
    ensures var s := After(Step, Lowered(cfg, xs)[..j]);
            var stage := Step(s, Lowered(cfg, xs)[j]).stage;
            stage.Accepted? ==> stage.hash !in s.pending
    ensures !Clashing(After(Step, Lowered(cfg, xs)[..j]), Lowered(cfg, xs)[j])
  {
    var run := Lowered(cfg, xs);
    var s := After(Step, run[..j]);
    if Step(s, run[j]).stage.Accepted? && Step(s, run[j]).stage.hash in s.pending {
      S.StepExplains();
      var i := S.EntryOrigin(Step, run, j, Step(s, run[j]).stage.hash);
      AcceptedOffer(s, run[j]);
      AcceptedOffer(After(Step, run[..i]), run[i]);
      LoweredAt(cfg, xs, i);
      LoweredAt(cfg, xs, j);
      SameSource(cfg, xs, i, j);
      S.AcceptedOnce(run, i, j);
    }
  }

  lemma {:induction false} NeverClashed(cfg: Config, xs: seq<Input>)
    requires OwnSteps(xs) && Clocked(Lowered(cfg, xs)) && Innocent(cfg, xs)
    ensures !Clashed(Lowered(cfg, xs))
  {
    var run := Lowered(cfg, xs);
    forall j: nat | j < |run| ensures !Clashing(After(Step, run[..j]), run[j]) { NeverDisplaces(cfg, xs, j); }
  }

  /* When a hello does displace */

  lemma {:induction false} WelcomeDisplaces(s: State, e: Event)
    requires Welcome(s, e)
    ensures Clashing(s, e) <==> e.msg.offer.value.hash in PruneState(s, e.now).pending
  {
    HelloAccepted(PruneState(s, e.now), e);
    StepHello(s, e);
  }

  // An honest client's hello displaces an entry exactly when one that is still live has its transcript hash.
  lemma {:induction false} DisplacesExactly(cfg: Config, x: C.Setup, s: State, d: Delivery)
    requires Ready(cfg, x, s, d)
    ensures Clashing(s, EventOf(cfg, d)) <==> OfferTo(cfg, x, d).hash in LivePending(s.pending, d.now)
  {
    HonestWelcome(cfg, x, s, d);
    WelcomeDisplaces(s, EventOf(cfg, d));
  }

  lemma {:induction false} LivePut(pending: map<Hash, Entry>, g: Hash, q: Entry, t: int, h: Hash)
    requires t < q.expires
    ensures h in LivePending(pending[g := q], t) <==> h == g || h in LivePending(pending, t)
  {
  }

  // What is pending at t, after a welcome hello under 30 seconds earlier.
  lemma {:induction false} LiveAfter(s: State, e: Event, t: int, h: Hash)
    requires Welcome(s, e) && t < e.now + PENDING_LIFE
    ensures h in LivePending(Step(s, e).state.pending, t) <==>
              h == e.msg.offer.value.hash || h in LivePending(LivePending(s.pending, e.now), t)
  {
    var p := PruneState(s, e.now);
    WelcomeStep(s, e);
    LivePut(p.pending, e.msg.offer.value.hash, NewEntry(p, e.source, e.now, e.msg, e.msg.peer.value), t, h);
  }

  // Of two honest hellos within 30 seconds the second displaces the first exactly when their transcripts collide,
  // unless it displaces an entry older than both.
  lemma {:induction false} CollisionDisplaces(cfg: Config, x: C.Setup, y: C.Setup, s: State, d: Delivery, f: Delivery)
    requires Ready(cfg, x, s, d) && Ready(cfg, y, Step(s, EventOf(cfg, d)).state, f)
    requires f.now < d.now + PENDING_LIFE
    ensures Clashing(Step(s, EventOf(cfg, d)).state, EventOf(cfg, f)) <==>
              || OfferTo(cfg, y, f).hash == OfferTo(cfg, x, d).hash
              || OfferTo(cfg, y, f).hash in LivePending(LivePending(s.pending, d.now), f.now)
  {
    HonestWelcome(cfg, x, s, d);
    LiveAfter(s, EventOf(cfg, d), f.now, OfferTo(cfg, y, f).hash);
    DisplacesExactly(cfg, y, Step(s, EventOf(cfg, d)).state, f);
  }
}
