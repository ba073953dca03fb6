/** A server object over its whole life: what it has done is a run of Machine, so theorems about runs are about it. */
module Service {
  import opened Bytes
  import opened Crypto
  import opened Machine
  import opened Handshake
  import opened Runs
  import opened Agreement
  import opened Erasure
  import V = Server
  import T = Table

  // The state s is where this run leads; under a sane clock the run made only choices the code can make; and
  // an entry was displaced only if a step of the run displaces one.
  ghost predicate Lived(step: StepFn, s: State, run: seq<Event>, clashed: bool) {
    s == After(step, run) && (Clocked(run) ==> Possible(step, run)) && (clashed ==> Clashed(run))
  }

  lemma {:induction false} ClashedOn(run: seq<Event>, e: Event)
    ensures Clashed(run) ==> Clashed(run + [e])
    ensures Clashing(After(Step, run), e) ==> Clashed(run + [e])
  {
    var more := run + [e];
    assert more[..|run|] == run;
    if Clashed(run) {
      var j: nat :| j < |run| && Clashing(After(Step, run[..j]), run[j]);
      assert more[..j] == run[..j] && more[j] == run[j];
    }
    assert more[|run|] == e;
  }

  lemma {:induction false} LivedOn(step: StepFn, s: State, run: seq<Event>, clashed: bool, e: Event, more: bool)
    requires Lived(step, s, run, clashed)
    requires Clocked(run) ==> Feasible(s, e)
    requires more ==> Clashed(run + [e])
    ensures Lived(step, step(s, e).state, run + [e], more)
  {
    var longer := run + [e];
    assert longer[..|run|] == run;
    if Clocked(longer) {
      forall i | 0 <= i < |run| ensures run[i].now != Bucket.ZERO_TIME { assert longer[i] == run[i]; }
      forall i, j | 0 <= i < j < |run| ensures run[i].now <= run[j].now {
        assert longer[i] == run[i] && longer[j] == run[j];
      }
      forall i | 0 <= i < |longer| ensures Feasible(After(step, longer[..i]), longer[i]) {
        if i < |run| { assert longer[..i] == run[..i]; }
      }
    }
  }

  // A step that leaves no choice open.
  lemma {:induction false} PlainStep(s: State, run: seq<Event>, clashed: bool, e: Event)
    requires Lived(Step, s, run, clashed) && !e.Handle?
    ensures Lived(Step, Step(s, e).state, run + [e], clashed)
  {
    ClashedOn(run, e);
    LivedOn(Step, s, run, clashed, e, clashed);
  }

  lemma {:induction false} ChoiceStep(su: Suite, s: State, u: State, run: seq<Event>, e: Event, reply: Option<Bytes>,
                                      session: Option<Session>, before: bool, after: bool)
    requires Lived(Step, s, run, before) && V.Taken(su, s, u, e, reply, session, before, after)
    ensures Lived(Step, u, run + [e], after)
    ensures reply == ReplyBytes(su, Step(s, e).reply) && session == Step(s, e).session
  {
    assert V.Ends(s, e, Step(s, e));
    if Clocked(run) { V.RunsStart(run); }
    ClashedOn(run, e);
    LivedOn(Step, s, run, before, e, after);
  }

  lemma {:induction false} LoweredNext(cfg: Config, xs: seq<Input>, x: Input)
    ensures Lowered(cfg, xs + [x]) == Lowered(cfg, xs) + [Lower(cfg, x)]
  {
    assert (xs + [x])[..|xs|] == xs;
  }

  ghost predicate Leads(cfg: Config, xs: seq<Input>, run: seq<Event>) { run == Lowered(cfg, xs) }

  // The run that these inputs are led to s, with or without a clash.
  ghost predicate Past(cfg: Config, xs: seq<Input>, s: State, clashed: bool) {
    forall run {:trigger Leads(cfg, xs, run)} :: Leads(cfg, xs, run) ==> Lived(Step, s, run, clashed)
  }

  lemma {:induction false} PlainPast(cfg: Config, xs: seq<Input>, s: State, clashed: bool, e: Event)
    requires Past(cfg, xs, s, clashed) && !e.Handle?
    ensures Past(cfg, xs + [Local(e)], Step(s, e).state, clashed)
  {
    assert Leads(cfg, xs, Lowered(cfg, xs));
    PlainStep(s, Lowered(cfg, xs), clashed, e);
    LoweredNext(cfg, xs, Local(e));
  }

  lemma {:induction false} ChoicePast(cfg: Config, xs: seq<Input>, s: State, u: State, d: Delivery,
                                      reply: Option<Bytes>, session: Option<Session>, before: bool, after: bool)
    requires Past(cfg, xs, s, before) && V.Taken(cfg.suite, s, u, EventOf(cfg, d), reply, session, before, after)
    ensures Past(cfg, xs + [Deliver(d)], u, after)
    ensures Answers(cfg, s, d, reply, session)
  {
    assert Leads(cfg, xs, Lowered(cfg, xs));
    ChoiceStep(cfg.suite, s, u, Lowered(cfg, xs), EventOf(cfg, d), reply, session, before, after);
    LoweredNext(cfg, xs, Deliver(d));
  }

  // The reply and session of the delivery's step from s.
  ghost predicate Answers(cfg: Config, s: State, d: Delivery, reply: Option<Bytes>, session: Option<Session>) {
    forall o {:trigger V.Ends(s, EventOf(cfg, d), o)} :: V.Ends(s, EventOf(cfg, d), o) ==>
      reply == ReplyBytes(cfg.suite, o.reply) && session == o.session
  }

  lemma {:induction false} NoClash(cfg: Config, xs: seq<Input>, s: State, clashed: bool)
    requires Past(cfg, xs, s, clashed) && OwnSteps(xs) && Clocked(Lowered(cfg, xs)) && Innocent(cfg, xs)
    ensures !clashed
  {
    assert Leads(cfg, xs, Lowered(cfg, xs));
    NeverClashed(cfg, xs);
  }

  lemma {:induction false} StartPast(cfg: Config)
    ensures Past(cfg, [], START, false)
  {
  }

  class Service {
    const server: V.Server
    ghost var inputs: seq<Input>

    // What the object has done is a run of Machine that leads to its state.
    ghost predicate Valid()
      reads this, server, server.table, server.table.issued
    {
      server.Intact() && OwnSteps(inputs) && Past(server.cfg, inputs, server.View(), server.table.clashed)
    }

    constructor (cfg: Config)
      ensures Valid() && server.cfg == cfg && inputs == []
    {
      server := new V.Server(cfg);
      inputs := [];
      new;
      StartPast(cfg);
    }

    // Handle a packet: the reply and session are those of the run's last step.
    method Handle(d: Delivery)
      returns (reply: Option<Bytes>, session: Option<Session>, handed: T.Pending?, ghost c: Choice)
      requires Valid()
      modifies this, server, server.table, server.table.issued
      ensures Valid() && inputs == old(inputs) + [Deliver(d.(choice := c))]
      ensures Answers(server.cfg, old(server.View()), d.(choice := c), reply, session)
      ensures session.Some? ==>
                handed != null && handed in server.table.issued && handed.handed && handed.ref == session.value.ref
    {
      ghost var s, clashed := server.View(), server.table.clashed;
      reply, session, handed, c := server.Handle(d);
      ChoicePast(server.cfg, inputs, s, server.View(), d.(choice := c), reply, session, clashed, server.table.clashed);
      inputs := inputs + [Deliver(d.(choice := c))];
    }

    method Expire(now: int)
      requires Valid()
      modifies this, server, server.table, server.table.issued
      ensures Valid() && inputs == old(inputs) + [Local(Machine.Expire(now))]
    {
      PlainPast(server.cfg, inputs, server.View(), server.table.clashed, Machine.Expire(now));
      server.Expire(now);
      inputs := inputs + [Local(Machine.Expire(now))];
    }

    method Close(ghost now: int)
      requires Valid()
      modifies this, server, server.table, server.table.issued
      ensures Valid() && inputs == old(inputs) + [Local(Machine.Close(now))]
      ensures forall p :: p in server.table.issued ==> p.Erased() || p.Displaced()
    {
      PlainPast(server.cfg, inputs, server.View(), server.table.clashed, Machine.Close(now));
      server.Close(now);
      inputs := inputs + [Local(Machine.Close(now))];
    }

    method Installed(p: T.Pending, ok: bool, ghost now: int)
      requires Valid() && p in server.table.issued && p.handed
      modifies this, server.table, p
      ensures Valid() && inputs == old(inputs) + [Local(Machine.Installed(now, p.ref, ok))]
      ensures p in server.table.issued && p.handed
    {
      ghost var e := Machine.Installed(now, p.ref, ok);
      PlainPast(server.cfg, inputs, server.View(), server.table.clashed, e);
      server.Installed(p, ok, now);
      inputs := inputs + [Local(e)];
    }

    // Whatever the object has been through: an entry ever created is in its table or its key and PSK are zero.
    lemma OutIsErased(p: T.Pending)
      requires Valid() && Clocked(Lowered(server.cfg, inputs)) && Innocent(server.cfg, inputs)
      requires p in server.table.issued && !server.table.Held(p)
      ensures p.Erased()
    {
      assert V.Asked(true);
      NoClash(server.cfg, inputs, server.View(), server.table.clashed);
      server.table.Out(p);
    }
  }
}
