/** The UDP forwarder: one reader and a worker per local source, interleaved step by step. */
module Forwarder {
  import opened Bytes
  import opened Collections
  import F = Fragments

  const MAX_FLOWS := 128
  const QUEUE_DEPTH := 3

  datatype Address = Address(host: Bytes, port: nat)

  // A datagram as its flow received it: `number` is its place in that flow's order of arrival.
  datatype Packet = Packet(number: nat, data: Bytes)

  // Dialing; socket open; socket closed but flow still in the table; removed.
  datatype Phase = Dialing | Open | Leaving | Gone

  // One flow and its worker: the bounded queue, the datagram being written, and what was written and received.
  datatype Flow = Flow(source: Address, phase: Phase, queue: seq<Packet>, hand: Option<Packet>, sent: seq<Packet>,
                       received: seq<Packet>)

  // Where the reader is. It holds the mutex everywhere but in Waiting.
  datatype Reader =
    | Waiting
    | Offering(flow: nat, packet: Packet)   // first attempt to enqueue
    | Dropping(flow: nat, packet: Packet)   // queue was full: take its oldest
    | Retrying(flow: nat, packet: Packet)   // second attempt

  datatype State = State(table: map<Address, nat>, flows: map<nat, Flow>, next: nat, reader: Reader)

  const START: State := State(map[], map[], 0, Waiting)

  datatype Action =
    | Arrive(source: Address, data: Bytes)
    | ReaderStep
    | Dialed(flow: nat, ok: bool)
    | Take(flow: nat)
    | Sent(flow: nat, ok: bool)
    | Finish(flow: nat)
    | Remove(flow: nat)

  predicate Enabled(s: State, a: Action) {
    match a
    case Arrive(_, _) => s.reader.Waiting?
    case ReaderStep => !s.reader.Waiting? && s.reader.flow in s.flows
    case Dialed(f, _) => f in s.flows && s.flows[f].phase.Dialing?
    case Take(f) => f in s.flows && s.flows[f].phase.Open? && s.flows[f].hand.None? && s.flows[f].queue != []
    case Sent(f, _) => f in s.flows && s.flows[f].phase.Open? && s.flows[f].hand.Some?
    case Finish(f) => f in s.flows && s.flows[f].phase.Open? && s.flows[f].hand.None?
    case Remove(f) => f in s.flows && s.flows[f].phase.Leaving? && s.reader.Waiting?
  }

  function Joined(w: Flow, data: Bytes): (Flow, Packet) {
    var p := Packet(|w.received|, data);
    (w.(received := w.received + [p]), p)
  }

  function ArriveStep(s: State, source: Address, data: Bytes): State {
    if |data| > F.MAX_DATAGRAM then s
    else if source in s.table && s.table[source] in s.flows then
      var f := s.table[source];
      var (w, p) := Joined(s.flows[f], data);
      s.(flows := s.flows[f := w], reader := Offering(f, p))
    else if |s.table| >= MAX_FLOWS then s
    else
      var (w, p) := Joined(Flow(source, Dialing, [], None, [], []), data);
      State(s.table[source := s.next], s.flows[s.next := w], s.next + 1, Offering(s.next, p))
  }

  function ReaderStepOf(s: State): State
    requires Enabled(s, ReaderStep)
  {
    var f, p := s.reader.flow, s.reader.packet;
    var w := s.flows[f];
    match s.reader
    case Offering(_, _) =>
      if |w.queue| < QUEUE_DEPTH then s.(flows := s.flows[f := w.(queue := w.queue + [p])], reader := Waiting)
      else s.(reader := Dropping(f, p))
    case Dropping(_, _) =>
      s.(flows := s.flows[f := w.(queue := if w.queue == [] then [] else w.queue[1..])], reader := Retrying(f, p))
    case Retrying(_, _) =>
      if |w.queue| < QUEUE_DEPTH then s.(flows := s.flows[f := w.(queue := w.queue + [p])], reader := Waiting)
      else s.(reader := Waiting)
  }

  // A worker's own step on its flow.
  function WorkerStep(w: Flow, a: Action): Flow
    requires a.Dialed? || a.Take? || a.Sent? || a.Finish?
    requires a.Take? ==> w.queue != []
    requires a.Sent? ==> w.hand.Some?
  {
    match a
    case Dialed(_, ok) => w.(phase := if ok then Open else Leaving)
    case Take(_) => w.(queue := w.queue[1..], hand := Some(w.queue[0]))
    case Sent(_, ok) =>
      if ok then w.(sent := w.sent + [w.hand.value], hand := None) else w.(phase := Leaving, hand := None)
    case Finish(_) => w.(phase := Leaving)
  }

  // Removal deletes the table entry only if it is still this flow's.
  function RemoveStep(s: State, f: nat): State
    requires f in s.flows
  {
    var w := s.flows[f];
    s.(table := if w.source in s.table && s.table[w.source] == f then s.table - {w.source} else s.table,
       flows := s.flows[f := w.(phase := Gone)])
  }

  function Apply(s: State, a: Action): State
    requires Enabled(s, a)
  {
    match a
    case Arrive(source, data) => ArriveStep(s, source, data)
    case ReaderStep => ReaderStepOf(s)
    case Remove(f) => RemoveStep(s, f)
    case Dialed(f, _) => s.(flows := s.flows[f := WorkerStep(s.flows[f], a)])
    case Take(f) => s.(flows := s.flows[f := WorkerStep(s.flows[f], a)])
    case Sent(f, _) => s.(flows := s.flows[f := WorkerStep(s.flows[f], a)])
    case Finish(f) => s.(flows := s.flows[f := WorkerStep(s.flows[f], a)])
  }

  /* One flow */

  function Opt(p: Option<Packet>): seq<Packet> { if p.Some? then [p.value] else [] }

  // What is left of a flow's datagrams: written, being written, queued, and held by the reader.
  function Kept(w: Flow, held: Option<Packet>): seq<Packet> { w.sent + Opt(w.hand) + w.queue + Opt(held) }

  ghost predicate Ordered(kept: seq<Packet>) { forall i, j :: 0 <= i < j < |kept| ==> kept[i].number < kept[j].number }

  ghost predicate Among(kept: seq<Packet>, received: seq<Packet>) {
    forall i :: 0 <= i < |kept| ==> kept[i].number < |received| && received[kept[i].number] == kept[i]
  }

  ghost predicate Numbered(received: seq<Packet>) { forall i :: 0 <= i < |received| ==> received[i].number == i }

  // The newest datagram received is the last one kept.
  ghost predicate NewestKept(kept: seq<Packet>, received: seq<Packet>) {
    received != [] ==> kept != [] && kept[|kept| - 1] == received[|received| - 1]
  }

  ghost predicate FlowSound(w: Flow, held: Option<Packet>) {
    && |w.queue| <= QUEUE_DEPTH && (w.hand.Some? ==> w.phase.Open?) && Numbered(w.received)
    && Ordered(Kept(w, held)) && Among(Kept(w, held), w.received)
    && (w.phase.Dialing? || w.phase.Open? ==> NewestKept(Kept(w, held), w.received))
  }

  lemma {:induction false} ArriveSound(w: Flow, data: Bytes)
    requires FlowSound(w, None)
    ensures var (x, p) := Joined(w, data); FlowSound(x, Some(p))
  {
    var (x, p) := Joined(w, data);
    assert Kept(x, Some(p)) == Kept(w, None) + [p];
  }

  lemma {:induction false} EnqueueSound(w: Flow, p: Packet)
    requires FlowSound(w, Some(p)) && |w.queue| < QUEUE_DEPTH
    ensures FlowSound(w.(queue := w.queue + [p]), None)
  {
    assert Kept(w.(queue := w.queue + [p]), None) == Kept(w, Some(p));
  }

  // Leaving out one datagram keeps the order.
  lemma {:induction false} WithoutOne(a: seq<Packet>, k: nat, received: seq<Packet>)
    requires k < |a| && Ordered(a) && Among(a, received)
    ensures Ordered(a[..k] + a[k + 1..]) && Among(a[..k] + a[k + 1..], received)
  {
    var b := a[..k] + a[k + 1..];
    assert forall i :: 0 <= i < |b| ==> b[i] == if i < k then a[i] else a[i + 1];
  }

  // The reader's own datagram comes after the one it drops, so the newest stays.
  lemma {:induction false} DropSound(w: Flow, p: Packet)
    requires FlowSound(w, Some(p)) && w.queue != []
    ensures FlowSound(w.(queue := w.queue[1..]), Some(p))
  {
    var a, k := Kept(w, Some(p)), |w.sent| + |Opt(w.hand)|;
    assert Kept(w.(queue := w.queue[1..]), Some(p)) == a[..k] + a[k + 1..];
    WithoutOne(a, k, w.received);
  }

  lemma {:induction false} TakeSound(w: Flow, held: Option<Packet>)
    requires FlowSound(w, held) && w.phase.Open? && w.hand.None? && w.queue != []
    ensures FlowSound(WorkerStep(w, Take(0)), held)
  {
    assert Kept(WorkerStep(w, Take(0)), held) == Kept(w, held);
  }

  lemma {:induction false} KeptParts(sent: seq<Packet>, p: Packet, queue: seq<Packet>, held: seq<Packet>)
    ensures sent + [p] + queue + held == sent + [p] + (queue + held)
    ensures sent + [p] + [] + queue + held == sent + [p] + (queue + held)
    ensures sent + [] + queue + held == sent + (queue + held)
    ensures var all := sent + [p] + (queue + held); all[..|sent|] + all[|sent| + 1..] == sent + (queue + held)
  {
  }

  // A datagram written moves from the hand to what was sent; one whose write failed is left out.
  lemma {:induction false} SentSound(w: Flow, held: Option<Packet>)
    requires FlowSound(w, held) && w.phase.Open? && w.hand.Some?
    ensures FlowSound(WorkerStep(w, Sent(0, true)), held) && FlowSound(WorkerStep(w, Sent(0, false)), held)
  {
    var a := Kept(w, held);
    KeptParts(w.sent, w.hand.value, w.queue, Opt(held));
    assert Kept(WorkerStep(w, Sent(0, true)), held) == a;
    assert Kept(WorkerStep(w, Sent(0, false)), held) == a[..|w.sent|] + a[|w.sent| + 1..];
    WithoutOne(a, |w.sent|, w.received);
  }

  lemma {:induction false} WorkerSound(w: Flow, a: Action, held: Option<Packet>)
    requires FlowSound(w, held)
    requires (a.Dialed? && w.phase.Dialing?) || (a.Take? && w.phase.Open? && w.hand.None? && w.queue != [])
             || (a.Sent? && w.phase.Open? && w.hand.Some?) || (a.Finish? && w.phase.Open? && w.hand.None?)
    ensures FlowSound(WorkerStep(w, a), held) && |WorkerStep(w, a).queue| <= |w.queue|
  {
    if a.Take? {
      TakeSound(w, held);
    } else if a.Sent? {
      SentSound(w, held);
    } else {
      assert Kept(WorkerStep(w, a), held) == Kept(w, held);
    }
  }

  /* The whole system */

  function Held(r: Reader, f: nat): Option<Packet> { if !r.Waiting? && r.flow == f then Some(r.packet) else None }

  // Every flow not removed is the one its source's table entry names, and the other way round.
  ghost predicate Matched(s: State) {
    && (forall a :: a in s.table ==>
          s.table[a] in s.flows && s.flows[s.table[a]].source == a && !s.flows[s.table[a]].phase.Gone?)
    && (forall f :: f in s.flows && !s.flows[f].phase.Gone? ==>
          s.flows[f].source in s.table && s.table[s.flows[f].source] == f)
    && (forall f :: f in s.flows ==> f < s.next)
  }

  // The reader's flow stays in the table while it holds the mutex, and its second attempt has room.
  ghost predicate ReaderSound(s: State) {
    !s.reader.Waiting? ==>
      && s.reader.flow in s.flows && !s.flows[s.reader.flow].phase.Gone?
      && (s.reader.Retrying? ==> |s.flows[s.reader.flow].queue| < QUEUE_DEPTH)
  }

  ghost predicate FlowsSound(s: State) { forall f :: f in s.flows ==> FlowSound(s.flows[f], Held(s.reader, f)) }

  ghost predicate Sound(s: State) { Matched(s) && ReaderSound(s) && FlowsSound(s) && |s.table| <= MAX_FLOWS }

  lemma {:induction false} StillMatched(s: State, f: nat, w: Flow, r: Reader)
    requires Matched(s) && f in s.flows && w.source == s.flows[f].source && (w.phase.Gone? <==> s.flows[f].phase.Gone?)
    ensures Matched(s.(flows := s.flows[f := w], reader := r))
  {
  }

  // Replacing one flow by a later form of itself.
  lemma {:induction false} OneFlow(s: State, f: nat, w: Flow, r: Reader)
    requires Sound(s) && f in s.flows && w.source == s.flows[f].source && (w.phase.Gone? <==> s.flows[f].phase.Gone?)
    requires FlowSound(w, Held(r, f)) && forall g :: g in s.flows && g != f ==> Held(r, g) == Held(s.reader, g)
    requires !r.Waiting? ==> r.flow in s.flows && !s.flows[r.flow].phase.Gone?
    requires r.Retrying? ==> |(if r.flow == f then w else s.flows[r.flow]).queue| < QUEUE_DEPTH
    ensures Sound(s.(flows := s.flows[f := w], reader := r))
  {
    StillMatched(s, f, w, r);
  }

  lemma {:induction false} NewFlow(s: State, source: Address, w: Flow, p: Packet)
    requires Sound(s) && s.reader.Waiting? && source !in s.table && |s.table| < MAX_FLOWS
    requires FlowSound(w, Some(p)) && w.source == source && !w.phase.Gone?
    ensures Sound(State(s.table[source := s.next], s.flows[s.next := w], s.next + 1, Offering(s.next, p)))
  {
    PutSize(s.table, source, s.next);
  }

  lemma {:induction false} ArriveKeeps(s: State, source: Address, data: Bytes)
    requires Sound(s) && s.reader.Waiting?
    ensures Sound(ArriveStep(s, source, data))
  {
    if |data| > F.MAX_DATAGRAM {
    } else if source in s.table && s.table[source] in s.flows {
      var f := s.table[source];
      ArriveSound(s.flows[f], data);
      var (w, p) := Joined(s.flows[f], data);
      OneFlow(s, f, w, Offering(f, p));
    } else if |s.table| < MAX_FLOWS {
      var started := Flow(source, Dialing, [], None, [], []);
      ArriveSound(started, data);
      var (w, p) := Joined(started, data);
      NewFlow(s, source, w, p);
    }
  }

  lemma {:induction false} ReaderKeeps(s: State)
    requires Sound(s) && Enabled(s, ReaderStep)
    ensures Sound(Apply(s, ReaderStep))
  {
    var f, p := s.reader.flow, s.reader.packet;
    var w := s.flows[f];
    assert FlowSound(w, Some(p));
    if s.reader.Dropping? {
      if w.queue != [] { DropSound(w, p); }
      var x := w.(queue := if w.queue == [] then [] else w.queue[1..]);
      if w.queue == [] { assert x == w; }
      OneFlow(s, f, x, Retrying(f, p));
    } else if |w.queue| < QUEUE_DEPTH {
      EnqueueSound(w, p);
      OneFlow(s, f, w.(queue := w.queue + [p]), Waiting);
    } else {
      OneFlow(s, f, w, Dropping(f, p));
      assert s.flows[f := w] == s.flows;
    }
  }

  lemma {:induction false} WorkerKeeps(s: State, a: Action, f: nat)
    requires Sound(s) && Enabled(s, a) && f in s.flows
    requires a == Dialed(f, true) || a == Dialed(f, false) || a == Take(f) || a == Sent(f, true) || a == Sent(f, false)
             || a == Finish(f)
    ensures Sound(Apply(s, a))
  {
    var w := s.flows[f];
    WorkerSound(w, a, Held(s.reader, f));
    OneFlow(s, f, WorkerStep(w, a), s.reader);
    assert s.(reader := s.reader) == s;
  }

  lemma {:induction false} RemoveKeeps(s: State, f: nat)
    requires Sound(s) && Enabled(s, Remove(f))
    ensures Sound(Apply(s, Remove(f)))
    ensures s.flows[f].source in s.table && s.table[s.flows[f].source] == f
  {
    SmallerMap(s.table - {s.flows[f].source}, s.table);
  }

  lemma {:induction false} StepKeeps(s: State, a: Action)
    requires Sound(s) && Enabled(s, a)
    ensures Sound(Apply(s, a))
  {
    match a
    case Arrive(source, data) => ArriveKeeps(s, source, data);
    case ReaderStep => ReaderKeeps(s);
    case Remove(f) => RemoveKeeps(s, f);
    case Dialed(f, _) => WorkerKeeps(s, a, f);
    case Take(f) => WorkerKeeps(s, a, f);
    case Sent(f, _) => WorkerKeeps(s, a, f);
    case Finish(f) => WorkerKeeps(s, a, f);
  }

  /* Runs */

  // A finite run: the states it passes and the actions between them.
  ghost predicate IsRun(states: seq<State>, actions: seq<Action>) {
    && |states| == |actions| + 1 && states[0] == START
    && forall i :: 0 <= i < |actions| ==>
         Enabled(states[i], actions[i]) && states[i + 1] == Apply(states[i], actions[i])
  }

  lemma {:induction false} AlwaysSound(states: seq<State>, actions: seq<Action>, i: nat)
    requires IsRun(states, actions) && i < |states|
    ensures Sound(states[i])
  {
    if i > 0 {
      AlwaysSound(states, actions, i - 1);
      StepKeeps(states[i - 1], actions[i - 1]);
    }
  }

  // The reader's second attempt always succeeds: the newest datagram is queued, never dropped.
  lemma {:induction false} RetrySucceeds(states: seq<State>, actions: seq<Action>, i: nat)
    requires IsRun(states, actions) && i < |actions| && actions[i].ReaderStep? && states[i].reader.Retrying?
    ensures var r, flows := states[i].reader, states[i].flows;
            && r.flow in flows
            && states[i + 1] == states[i].(
                 reader := Waiting,
                 flows := flows[r.flow := flows[r.flow].(queue := flows[r.flow].queue + [r.packet])])
  {
    AlwaysSound(states, actions, i);
  }

  // a is what remains of b after leaving some elements out.
  ghost predicate Subsequence(a: seq<Bytes>, b: seq<Bytes>) {
    exists at: seq<nat> :: Embeds(at, a, b)
  }

  ghost predicate Embeds(at: seq<nat>, a: seq<Bytes>, b: seq<Bytes>) {
    && |at| == |a| && (forall i :: 0 <= i < |at| ==> at[i] < |b| && a[i] == b[at[i]])
    && (forall i, j :: 0 <= i < j < |at| ==> at[i] < at[j])
  }

  function Datas(ps: seq<Packet>): (bs: seq<Bytes>)
    ensures |bs| == |ps| && forall i :: 0 <= i < |ps| ==> bs[i] == ps[i].data
  {
    if ps == [] then [] else Datas(ps[..|ps| - 1]) + [ps[|ps| - 1].data]
  }

  function Numbers(ps: seq<Packet>): (ns: seq<nat>)
    ensures |ns| == |ps| && forall i :: 0 <= i < |ps| ==> ns[i] == ps[i].number
  {
    if ps == [] then [] else Numbers(ps[..|ps| - 1]) + [ps[|ps| - 1].number]
  }

  lemma {:induction false} Embedded(kept: seq<Packet>, received: seq<Packet>)
    requires Ordered(kept) && Among(kept, received)
    ensures Subsequence(Datas(kept), Datas(received))
  {
    assert Embeds(Numbers(kept), Datas(kept), Datas(received));
  }

  lemma {:induction false} FrontSound(kept: seq<Packet>, more: seq<Packet>, received: seq<Packet>)
    requires Ordered(kept + more) && Among(kept + more, received)
    ensures Ordered(kept) && Among(kept, received)
  {
    assert forall i :: 0 <= i < |kept| ==> kept[i] == (kept + more)[i];
  }

  lemma {:induction false} FlowInOrder(w: Flow, held: Option<Packet>)
    requires FlowSound(w, held)
    ensures var kept := w.sent + Opt(w.hand) + w.queue;
            && Subsequence(Datas(kept), Datas(w.received))
            && (held.None? && (w.phase.Dialing? || w.phase.Open?) && w.received != [] ==>
                  kept != [] && kept[|kept| - 1] == w.received[|w.received| - 1])
  {
    var kept := w.sent + Opt(w.hand) + w.queue;
    FrontSound(kept, Opt(held), w.received);
    Embedded(kept, w.received);
    if held.None? { assert Kept(w, held) == kept; }
  }

  // What each flow has written, is writing and has queued is a subsequence of what it received, in order;
  // and while the flow lives, the newest datagram received is the last of them.
  lemma {:induction false} SentInOrder(states: seq<State>, actions: seq<Action>, i: nat, f: nat)
    requires IsRun(states, actions) && i < |states| && f in states[i].flows
    ensures var w := states[i].flows[f];
            var kept := w.sent + Opt(w.hand) + w.queue;
            && Subsequence(Datas(kept), Datas(w.received))
            && (states[i].reader.Waiting? && (w.phase.Dialing? || w.phase.Open?) && w.received != [] ==>
                  kept != [] && kept[|kept| - 1] == w.received[|w.received| - 1])
  {
    AlwaysSound(states, actions, i);
    FlowInOrder(states[i].flows[f], Held(states[i].reader, f));
  }

  // Each source in the table has exactly one worker that has not been removed.
  lemma {:induction false} OneWorkerPerSource(states: seq<State>, actions: seq<Action>, i: nat)
    requires IsRun(states, actions) && i < |states|
    ensures forall f, g :: f in states[i].flows && g in states[i].flows
              && !states[i].flows[f].phase.Gone? && !states[i].flows[g].phase.Gone?
              ==> states[i].flows[f].source == states[i].flows[g].source ==> f == g
    ensures forall a :: a in states[i].table <==>
              exists f :: f in states[i].flows && !states[i].flows[f].phase.Gone? && states[i].flows[f].source == a
  {
    AlwaysSound(states, actions, i);
    forall a
      ensures a in states[i].table <==>
              exists f :: f in states[i].flows && !states[i].flows[f].phase.Gone? && states[i].flows[f].source == a
    {
      if a in states[i].table {
        var f := states[i].table[a];
        assert f in states[i].flows;
      }
    }
  }

  // A worker that leaves always finds its own entry, so the check before deleting never fails.
  lemma {:induction false} RemovesItsOwn(states: seq<State>, actions: seq<Action>, i: nat, f: nat)
    requires IsRun(states, actions) && i < |actions| && actions[i] == Remove(f)
    ensures var s := states[i];
            s.flows[f].source in s.table && s.table[s.flows[f].source] == f
            && states[i + 1].table == s.table - {s.flows[f].source}
  {
    AlwaysSound(states, actions, i);
    RemoveKeeps(states[i], f);
  }

  /* What each action does with the datagrams */

  // What a flow has written, is writing and has queued, in that order.
  function InFlow(w: Flow): seq<Packet> { w.sent + Opt(w.hand) + w.queue }

  // What becomes of flow f's datagrams in one action: the reader adds the one it holds, or, when the queue was full,
  // first drops the oldest queued; a failed write loses the one being written; any other action keeps them all.
  lemma {:induction false} ConservesExactly(s: State, a: Action, f: nat)
    requires Sound(s) && Enabled(s, a) && f in s.flows
    ensures f in Apply(s, a).flows
    ensures var w, x := s.flows[f], Apply(s, a).flows[f];
            var ours := a.ReaderStep? && s.reader.flow == f;
            InFlow(x) == if ours && s.reader.Dropping? then
                           w.sent + Opt(w.hand) + if w.queue == [] then [] else w.queue[1..]
                         else if ours && (s.reader.Retrying? || |w.queue| < 3) then InFlow(w) + [s.reader.packet]
                         else if a == Sent(f, false) then w.sent + w.queue
                         else InFlow(w)
  {
    if a.ReaderStep? {
      if s.reader.flow == f { ReaderConserves(s); } else { assert Apply(s, a).flows[f] == s.flows[f]; }
    } else if a.Dialed? || a.Take? || a.Sent? || a.Finish? {
      if a.flow == f { WorkerConserves(s.flows[f], a); }
    }
  }

  lemma {:induction false} ReaderConserves(s: State)
    requires Sound(s) && Enabled(s, ReaderStep)
    ensures s.reader.flow in Apply(s, ReaderStep).flows
    ensures var f := s.reader.flow;
            var w, x := s.flows[f], Apply(s, ReaderStep).flows[f];
            InFlow(x) == if s.reader.Dropping? then w.sent + Opt(w.hand) + if w.queue == [] then [] else w.queue[1..]
                         else if s.reader.Retrying? || |w.queue| < 3 then InFlow(w) + [s.reader.packet]
                         else InFlow(w)
  {
    var w := s.flows[s.reader.flow];
    Appended(w.sent + Opt(w.hand), w.queue, s.reader.packet);
  }

  lemma {:induction false} WorkerConserves(w: Flow, a: Action)
    requires (a.Dialed? && w.hand.None?) || (a.Take? && w.hand.None? && w.queue != [])
             || (a.Sent? && w.hand.Some?) || (a.Finish? && w.hand.None?)
    ensures InFlow(WorkerStep(w, a)) == if a.Sent? && !a.ok then w.sent + w.queue else InFlow(w)
  {
    if a.Take? {
      Moved(w.sent, w.queue);
    } else if a.Sent? {
      Written(w.sent, w.hand.value, w.queue);
      assert w.sent + [] == w.sent;
    }
  }

  lemma {:induction false} Appended(front: seq<Packet>, queue: seq<Packet>, p: Packet)
    ensures front + (queue + [p]) == front + queue + [p]
  {
  }

  lemma {:induction false} Moved(sent: seq<Packet>, queue: seq<Packet>)
    requires queue != []
    ensures sent + [queue[0]] + queue[1..] == sent + [] + queue
  {
  }

  lemma {:induction false} Written(sent: seq<Packet>, p: Packet, queue: seq<Packet>)
    ensures sent + [p] + [] + queue == sent + [p] + queue
  {
  }

  // What a flow received grows by the datagrams that arrive from its source, and nothing else changes it.
  lemma {:induction false} ReceivesExactly(s: State, a: Action, f: nat)
    requires Sound(s) && Enabled(s, a) && f in s.flows
    ensures f in Apply(s, a).flows
    ensures var w, x := s.flows[f], Apply(s, a).flows[f];
            x.received == if a.Arrive? && |a.data| <= 65507 && a.source in s.table && s.table[a.source] == f then
                            w.received + [Packet(|w.received|, a.data)]
                          else w.received
  {
    if a.Arrive? {
      ArrivalReceived(s, a.source, a.data, f);
    } else if a.ReaderStep? {
      assert f != s.reader.flow ==> Apply(s, a).flows[f] == s.flows[f];
    }
  }

  lemma {:induction false} ArrivalReceived(s: State, source: Address, data: Bytes, f: nat)
    requires Sound(s) && s.reader.Waiting? && f in s.flows
    ensures f in ArriveStep(s, source, data).flows
    ensures ArriveStep(s, source, data).flows[f].received ==
            if |data| <= 65507 && source in s.table && s.table[source] == f then
              s.flows[f].received + [Packet(|s.flows[f].received|, data)]
            else s.flows[f].received
    ensures ArriveStep(s, source, data).flows[f].phase == s.flows[f].phase
  {
  }

  // Where an arriving datagram goes: to its source's flow, to a new flow while fewer than 128 are in the table, and
  // nowhere when it is too long or the table is full.
  lemma {:induction false} ArrivesExactly(s: State, source: Address, data: Bytes)
    requires Sound(s) && s.reader.Waiting?
    ensures var t := Apply(s, Arrive(source, data));
            if |data| > 65507 || (source !in s.table && |s.table| >= 128) then t == s
            else if source in s.table then
              && t.table == s.table && t.next == s.next && t.flows.Keys == s.flows.Keys
              && t.reader == Offering(s.table[source], Packet(|s.flows[s.table[source]].received|, data))
            else
              && t.table == s.table[source := s.next] && t.next == s.next + 1 && s.next !in s.flows
              && t.flows == s.flows[s.next := Flow(source, Dialing, [], None, [], [Packet(0, data)])]
              && t.reader == Offering(s.next, Packet(0, data))
  {
    assert [] + [Packet(0, data)] == [Packet(0, data)];
  }

  // A worker opens its flow when dialing succeeds, leaves when it does not, when a write fails or when it is told
  // to, and is gone once it has removed itself; nothing else moves it.
  lemma {:induction false} PhasesExactly(s: State, a: Action, f: nat)
    requires Sound(s) && Enabled(s, a) && f in s.flows
    ensures f in Apply(s, a).flows
    ensures Apply(s, a).flows[f].phase ==
            if a == Dialed(f, true) then Open
            else if a == Dialed(f, false) || a == Sent(f, false) || a == Finish(f) then Leaving
            else if a == Remove(f) then Gone
            else s.flows[f].phase
  {
    if a.ReaderStep? {
      assert f != s.reader.flow ==> Apply(s, a).flows[f] == s.flows[f];
    } else if a.Arrive? {
      ArrivalReceived(s, a.source, a.data, f);
    } else if a.Remove? {
      assert f != a.flow ==> Apply(s, a).flows[f] == s.flows[f];
    }
  }

  // No step before i dropped a datagram of flow f or failed to write one.
  ghost predicate Lossless(states: seq<State>, actions: seq<Action>, i: nat, f: nat)
    requires |states| > |actions| >= i
  {
    forall k: nat {:trigger actions[k]} :: k < i ==>
      && actions[k] != Sent(f, false)
      && !(actions[k].ReaderStep? && states[k].reader.Dropping? && states[k].reader.flow == f)
  }

  lemma {:induction false} KeepsAll(s: State, a: Action, f: nat)
    requires Sound(s) && Enabled(s, a) && f in s.flows && Kept(s.flows[f], Held(s.reader, f)) == s.flows[f].received
    requires a != Sent(f, false) && !(a.ReaderStep? && s.reader.Dropping? && s.reader.flow == f)
    ensures f in Apply(s, a).flows
    ensures var t := Apply(s, a); Kept(t.flows[f], Held(t.reader, f)) == t.flows[f].received
  {
    var t := Apply(s, a);
    ConservesExactly(s, a, f);
    ReceivesExactly(s, a, f);
    assert Kept(s.flows[f], Held(s.reader, f)) == InFlow(s.flows[f]) + Opt(Held(s.reader, f));
    assert Kept(t.flows[f], Held(t.reader, f)) == InFlow(t.flows[f]) + Opt(Held(t.reader, f));
  }

  lemma {:induction false} OnlyArrivalsStart(s: State, a: Action, f: nat)
    requires Sound(s) && Enabled(s, a) && f !in s.flows && f in Apply(s, a).flows
    ensures a.Arrive? && |a.data| <= 65507 && a.source !in s.table && |s.table| < 128 && f == s.next
  {
  }

  lemma {:induction false} FirstKept(source: Address, p: Packet)
    ensures Kept(Flow(source, Dialing, [], None, [], [p]), Some(p)) == [p]
  {
  }

  lemma {:induction false} NewFlowKeeps(s: State, a: Action, f: nat)
    requires Sound(s) && Enabled(s, a) && f !in s.flows && f in Apply(s, a).flows
    ensures var t := Apply(s, a); Kept(t.flows[f], Held(t.reader, f)) == t.flows[f].received
  {
    OnlyArrivalsStart(s, a, f);
    ArrivesExactly(s, a.source, a.data);
    FirstKept(a.source, Packet(0, a.data));
  }

  lemma {:induction false} LosslessBefore(states: seq<State>, actions: seq<Action>, i: nat, f: nat)
    requires |states| > |actions| >= i > 0 && Lossless(states, actions, i, f)
    ensures Lossless(states, actions, i - 1, f) && actions[i - 1] != Sent(f, false)
    ensures var s, a := states[i - 1], actions[i - 1];
            !(a.ReaderStep? && s.reader.Dropping? && s.reader.flow == f)
  {
    assert actions[i - 1] == actions[i - 1];
  }

  // A flow whose queue was never full and whose writes never failed has lost nothing: what it wrote, is writing, has
  // queued and is being handed is everything it received, in order.
  lemma {:induction false} NothingLost(states: seq<State>, actions: seq<Action>, i: nat, f: nat)
    requires IsRun(states, actions) && i < |states| && Lossless(states, actions, i, f) && f in states[i].flows
    ensures Kept(states[i].flows[f], Held(states[i].reader, f)) == states[i].flows[f].received
  {
    if i > 0 {
      var s, a := states[i - 1], actions[i - 1];
      LosslessBefore(states, actions, i, f);
      AlwaysSound(states, actions, i - 1);
      if f in s.flows {
        NothingLost(states, actions, i - 1, f);
        KeepsAll(s, a, f);
      } else {
        NewFlowKeeps(s, a, f);
      }
    }
  }

  lemma {:induction false} TurnsToDropping(s: State, a: Action)
    requires Sound(s) && Enabled(s, a) && Apply(s, a).reader.Dropping?
    ensures var r := Apply(s, a).reader;
            if s.reader.Dropping? then s.reader == r
            else s.reader == Offering(r.flow, r.packet) && r.flow in s.flows && |s.flows[r.flow].queue| == 3
  {
  }

  // The reader stays where it is in states (j, i].
  ghost predicate Stays(states: seq<State>, r: Reader, j: nat, i: nat)
    requires i < |states|
  {
    forall k :: j < k <= i ==> states[k].reader == r
  }

  // It turned to dropping r's datagram just before, having found the queue full.
  ghost predicate FoundFull(s: State, r: Reader) {
    r.Dropping? && s.reader == Offering(r.flow, r.packet) && r.flow in s.flows && |s.flows[r.flow].queue| == 3
  }

  lemma {:induction false} DroppingBefore(states: seq<State>, actions: seq<Action>, i: nat)
    requires IsRun(states, actions) && i < |states| && states[i].reader.Dropping?
    ensures i > 0 && (FoundFull(states[i - 1], states[i].reader) || states[i - 1].reader == states[i].reader)
  {
    if i > 0 {
      AlwaysSound(states, actions, i - 1);
      TurnsToDropping(states[i - 1], actions[i - 1]);
    }
  }

  // A datagram is dropped only after the reader found the queue full, three datagrams long, and while it holds the
  // datagram it found that with.
  lemma {:induction false} DropsOnlyWhenFull(states: seq<State>, actions: seq<Action>, i: nat) returns (j: nat)
    requires IsRun(states, actions) && i < |states| && states[i].reader.Dropping?
    ensures j < i && FoundFull(states[j], states[i].reader) && Stays(states, states[i].reader, j, i)
  {
    DroppingBefore(states, actions, i);
    j := i - 1;
    if !FoundFull(states[j], states[i].reader) { j := DropsOnlyWhenFull(states, actions, i - 1); }
  }

  ghost function OpenSockets(s: State): set<nat> { set f | f in s.flows && s.flows[f].phase.Open? }

  lemma {:induction false} NoMoreThan(fs: set<nat>, table: map<Address, nat>, s: State)
    requires forall f :: f in fs ==> f in s.flows && s.flows[f].source in table && table[s.flows[f].source] == f
    ensures |fs| <= |table|
  {
    if fs != {} {
      var f :| f in fs;
      var a := s.flows[f].source;
      var rest := table - {a};
      NoMoreThan(fs - {f}, rest, s);
      PutSize(rest, a, f);
      assert rest[a := f] == table;
    }
  }

  // Open tunnel sockets never exceed the flow limit.
  lemma {:induction false} SocketsBounded(states: seq<State>, actions: seq<Action>, i: nat)
    requires IsRun(states, actions) && i < |states|
    ensures |OpenSockets(states[i])| <= 128
  {
    AlwaysSound(states, actions, i);
    NoMoreThan(OpenSockets(states[i]), states[i].table, states[i]);
  }
}
