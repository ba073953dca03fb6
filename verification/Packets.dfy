/** The run theorems said of packets: what the bytes of a session's hello were, and that no packet is accepted twice. */
module Packets {
  import opened Bytes
  import opened Bucket
  import opened Wire
  import opened Machine
  import opened Handshake
  import opened Runs
  import E = Entries
  import S = Sessions
  import opened Agreement

  // Every session goes back to a ClientHello packet from the same source, under 30 seconds earlier, whose
  // signature verified under the key authorized for the session's PeerID; that PeerID is still authorized.
  lemma {:induction false} SignedProvenance(cfg: Config, xs: seq<Input>, j: nat) returns (i: nat, pub: Bytes)
    requires OwnSteps(xs) && j < |xs| && At(Step, Lowered(cfg, xs), j).session.Some?
    ensures i < j && xs[i].Deliver? && xs[j].Deliver?
    ensures var x, d, f := At(Step, Lowered(cfg, xs), j).session.value, xs[i].d, xs[j].d;
            && SignedUnder(cfg.suite, d.auth, d.packet, x.peer, pub)
            && x.keys == HelloKeys(HelloIn(d.packet)) && x.keys.wg == d.source
            && d.source == f.source && f.now < d.now + 30 * SECOND
            && Lookup(f.auth, x.peer) != []
  {
    var run := Lowered(cfg, xs);
    i := S.Provenance(run, j);
    LoweredAt(cfg, xs, i);
    LoweredAt(cfg, xs, j);
    var d, m := xs[i].d, Interpret(cfg, xs[i].d);
    HelloMeans(cfg, d);
    pub :| (m.peer.value, pub) in d.auth && (m.signed ==> SignedUnder(cfg.suite, d.auth, d.packet, m.peer.value, pub));
    FinishKnows(cfg, xs[j].d, At(Step, run, j).session.value.peer);
  }

  // Every acknowledgement answers a ClientFinish packet from the source of its entry, in time, for an identity
  // authorized when it arrives, with the hash and the proof that only the entry's confirmation key gives.
  lemma {:induction false} AcknowledgedBytes(cfg: Config, xs: seq<Input>, j: nat)
    requires OwnSteps(xs) && j < |xs| && At(Step, Lowered(cfg, xs), j).reply.Acknowledge?
    ensures xs[j].Deliver?
    ensures var s, d, h := After(Step, Lowered(cfg, xs)[..j]), xs[j].d, At(Step, Lowered(cfg, xs), j).reply.hash;
            && h in s.pending
            && var p := s.pending[h];
               && p.source == d.source && d.now < p.expires && Lookup(d.auth, p.peer) != []
               && d.packet == Frame(3, h + cfg.suite.hmac(p.hk, Ascii("client-finished") + h))
               && ReplyBytes(cfg.suite, At(Step, Lowered(cfg, xs), j).reply)
                  == Some(Frame(4, h + cfg.suite.hmac(p.hk, Ascii("server-accepted") + h)))
  {
    LoweredAt(cfg, xs, j);
    E.StepAnswers(After(Step, Lowered(cfg, xs)[..j]), Lowered(cfg, xs)[j]);
    FinishesExactly(cfg, xs[j].d);
    FinishIs(xs[j].d.packet);
  }

  lemma {:induction false} FinishIs(packet: Bytes)
    requires Parse(packet).Some? && |packet| == 8 + 96 && packet[5] == 3
    ensures packet == Frame(3, packet[8..][..48] + packet[8..][48..])
  {
    FrameOfParse(packet);
    assert packet[8..] == packet[8..][..48] + packet[8..][48..];
  }

  lemma {:induction false} FinishKnows(cfg: Config, d: Delivery, id: Key)
    requires Interpret(cfg, d).Finish? && Interpret(cfg, d).known(id)
    ensures Lookup(d.auth, id) != []
  {
  }

  lemma {:induction false} SameIdentity(cfg: Config, d: Delivery, f: Delivery)
    requires var m, n := Interpret(cfg, d), Interpret(cfg, f);
             m.Hello? && n.Hello? && m.peer.Some? && n.peer.Some?
    requires IsHello(d.packet) && IsHello(f.packet) && HelloIn(d.packet) == HelloIn(f.packet)
    requires TagsDistinct(cfg.suite, Ids(d.auth) + Ids(f.auth), HelloNonce(HelloIn(d.packet)))
    ensures Interpret(cfg, d).peer == Interpret(cfg, f).peer
  {
    HelloMeans(cfg, d);
    HelloMeans(cfg, f);
    var p :| (Interpret(cfg, d).peer.value, p) in d.auth;
    var q :| (Interpret(cfg, f).peer.value, q) in f.auth;
    assert Interpret(cfg, d).peer.value in Ids(d.auth) && Interpret(cfg, f).peer.value in Ids(f.auth);
  }

  // What two readings of one hello have in common.
  lemma {:induction false} SameReading(cfg: Config, d: Delivery, f: Delivery)
    requires var m, n := Interpret(cfg, d), Interpret(cfg, f);
             m.Hello? && n.Hello? && m.peer.Some? && n.peer.Some?
    requires IsHello(d.packet) && IsHello(f.packet) && HelloIn(d.packet) == HelloIn(f.packet)
    requires TagsDistinct(cfg.suite, Ids(d.auth) + Ids(f.auth), HelloNonce(HelloIn(d.packet)))
    ensures var m, n := Interpret(cfg, d), Interpret(cfg, f);
            m.replay == n.replay && m.stamp == n.stamp
  {
    SameIdentity(cfg, d, f);
    HelloMeans(cfg, d);
    HelloMeans(cfg, f);
  }

  lemma {:induction false} AcceptedHello(s: State, e: Event)
    requires e.Handle? && Step(s, e).stage.Accepted?
    ensures e.msg.Hello? && e.msg.peer.Some?
  {
    E.StepRecords(s, e);
  }

  // One ClientHello packet creates at most one pending entry in a whole run without Close, however often,
  // whenever and with whatever authorization set it is delivered again.
  lemma {:induction false} PacketOnce(cfg: Config, xs: seq<Input>, i: nat, j: nat)
    requires Clocked(Lowered(cfg, xs)) && i < j < |xs|
    requires forall k :: i <= k < j && xs[k].Local? ==> !xs[k].e.Close?
    requires xs[i].Deliver? && xs[j].Deliver? && xs[i].d.packet == xs[j].d.packet
    requires IsHello(xs[i].d.packet) ==>
               TagsDistinct(cfg.suite, Ids(xs[i].d.auth) + Ids(xs[j].d.auth), HelloNonce(HelloIn(xs[i].d.packet)))
    ensures !(At(Step, Lowered(cfg, xs), i).stage.Accepted? && At(Step, Lowered(cfg, xs), j).stage.Accepted?)
  {
    var run := Lowered(cfg, xs);
    LoweredAt(cfg, xs, i);
    LoweredAt(cfg, xs, j);
    if At(Step, run, i).stage.Accepted? && At(Step, run, j).stage.Accepted? {
      AcceptedHello(After(Step, run[..i]), run[i]);
      AcceptedHello(After(Step, run[..j]), run[j]);
      HelloMeans(cfg, xs[i].d);
      SameReading(cfg, xs[i].d, xs[j].d);
      forall k | i <= k < j ensures !run[k].Close? { LoweredAt(cfg, xs, k); }
      S.AcceptedOnce(run, i, j);
    }
  }
}
