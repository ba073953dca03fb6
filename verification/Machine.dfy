/** The bootstrap server's control flow: one atomic step per locked call, on messages already decoded.
    Decoding, signatures and key derivation are in module Handshake. */
module Machine {
  import opened Bytes
  import opened Wire
  import opened Bucket

  const PENDING_LIFE := 30 * SECOND
  const REPLAY_LIFE := 300 * SECOND
  const MAX_PENDING := 256
  const MAX_OWNED := 8
  const MAX_REPLAY := 64 * 301
  const MAX_TABLE := 4096
  const STAMP_WINDOW := 120

  // What the server derives for one hello: transcript hash, PSK, confirmation key, ServerHello frame.
  datatype Offer = Offer(hash: Hash, psk: Key, hk: Key, response: Bytes)

  datatype Message =
    | Malformed
    | Foreign
    // The finish names a transcript; `proves` tells which confirmation keys its proof matches,
    // and `known` which identities are authorized when it arrives.
    | Finish(hash: Hash, proves: Key -> bool, known: Key -> bool)
    // A hello: whether its fixed fields are acceptable, its stamp, the identity its tag resolves to,
    // the replay key and packet digest, whether its signature verifies, its keys, whether its KEM key
    // is valid, and the offer (None when randomness, derivation or signing fails).
    | Hello(sound: bool, stamp: int, peer: Option<Key>, replay: Hash, digest: Hash, signed: bool,
            keys: Keys, kemValid: bool, offer: Option<Offer>)

  // One pending handshake. `ref` numbers acceptances, so it stands for the entry's address.
  datatype Entry = Entry(ref: nat, peer: Key, keys: Keys, psk: Key, hk: Key, source: Key, expires: int,
                         accepted: bool, installing: bool, digest: Hash, response: Bytes)

  // `next` numbers the next acceptance; `open` holds the Installed callbacks not called yet, with their hash.
  datatype State = State(pending: map<Hash, Entry>, replay: map<Hash, int>, limits: map<Key, Bucket>,
                         peerLimits: map<Key, Bucket>, global: Bucket, next: nat, open: map<nat, Hash>)

  const START: State := State(map[], map[], map[], map[], NO_BUCKET, 0, map[])

  // How Go's unordered map iteration resolved each choice the step leaves open: which oldest sender and
  // identity bucket to evict, and which matching pending entry answers a retransmission.
  datatype Choice = Choice(sender: Key, peer: Key, cached: Hash)

  datatype Event =
    | Handle(source: Key, now: int, msg: Message, choice: Choice)
    | Expire(now: int)
    | Installed(now: int, ref: nat, ok: bool)
    | Close(now: int)

  datatype Session = Session(ref: nat, hash: Hash, peer: Key, keys: Keys, psk: Key)

  datatype Reply = Silence | Respond(frame: Bytes) | Acknowledge(hash: Hash, hk: Key)

  // Where a call ended, in the order the checks are made.
  datatype Stage =
    | Idle | FinishRefused | Acknowledged | Granted
    | BadFields | BadStamp | SenderLimited | Unresolved | GlobalLimited
    | Replayed | Retransmitted | ReplayFull | PendingFull | BadSignature
    | PeerLimited(id: Key) | PeerQuota(id: Key) | BadKemKey(id: Key) | Failed(id: Key)
    | Accepted(id: Key, ref: nat, hash: Hash)

  datatype Outcome = Outcome(state: State, reply: Reply, session: Option<Session>, stage: Stage)

  function Drop(s: State, stage: Stage): Outcome { Outcome(s, Silence, None, stage) }

  /* Pruning */

  function LivePending(pending: map<Hash, Entry>, now: int): map<Hash, Entry> {
    pending - (set h | h in pending && now >= pending[h].expires)
  }

  function LiveReplay(replay: map<Hash, int>, now: int): map<Hash, int> {
    replay - (set h | h in replay && now >= replay[h])
  }

  function PruneState(s: State, now: int): State {
    s.(pending := LivePending(s.pending, now), replay := LiveReplay(s.replay, now),
       limits := Prune(s.limits, now), peerLimits := Prune(s.peerLimits, now))
  }

  /* ClientFinish */

  // Another transcript of the same source has been handed out and not committed.
  predicate Busy(pending: map<Hash, Entry>, h: Hash) {
    h in pending &&
    exists k :: k in pending && k != h && pending[k].source == pending[h].source
                && pending[k].installing && !pending[k].accepted
  }

  function Competing(pending: map<Hash, Entry>, h: Hash): set<Hash> {
    set k | k in pending && h in pending && k != h && pending[k].source == pending[h].source
  }

  function FinishStep(s: State, source: Key, m: Message): Outcome
    requires m.Finish?
  {
    var h := m.hash;
    if h !in s.pending then Drop(s, FinishRefused) else
    var p := s.pending[h];
    if p.source != source || !m.known(p.peer) || !m.proves(p.hk) then Drop(s, FinishRefused)
    else if p.accepted then Outcome(s, Acknowledge(h, p.hk), None, Acknowledged)
    else if p.installing || Busy(s.pending, h) then Drop(s, FinishRefused)
    else
      Outcome(s.(pending := (s.pending - Competing(s.pending, h))[h := p.(installing := true)],
                 open := s.open[p.ref := h]),
              Acknowledge(h, p.hk), Some(Session(p.ref, h, p.peer, p.keys, p.psk)), Granted)
  }

  /* ClientHello */

  function Owned(pending: map<Hash, Entry>, id: Key): set<Hash> {
    set h | h in pending && pending[h].peer == id
  }

  function NewEntry(s: State, source: Key, now: int, m: Message, id: Key): Entry
    requires m.Hello? && m.offer.Some?
  {
    var o := m.offer.value;
    Entry(s.next, id, m.keys, o.psk, o.hk, source, now + PENDING_LIFE, false, false, m.digest, o.response)
  }

  // Which tables are at capacity for a hello. One call reads each of these before it changes that table,
  // so they can all be taken from the pruned state it starts in.
  datatype Full = Full(sender: bool, replay: bool, pending: bool, peer: bool, quota: bool)

  function Fullness(s: State, m: Message): Full
    requires m.Hello?
  {
    Full(|s.limits| >= MAX_TABLE, |s.replay| >= MAX_REPLAY, |s.pending| >= MAX_PENDING, |s.peerLimits| >= MAX_TABLE,
         m.peer.Some? && |Owned(s.pending, m.peer.value)| >= MAX_OWNED)
  }

  predicate IsCached(s: State, source: Key, m: Message, h: Hash)
    requires m.Hello?
  {
    h in s.pending && s.pending[h].source == source && s.pending[h].digest == m.digest
  }

  function Unix(t: int): int { t / SECOND }

  predicate Timely(stamp: int, now: int) { Unix(now) - STAMP_WINDOW <= stamp <= Unix(now) + STAMP_WINDOW }

  function SenderTable(s: State, full: Full, source: Key, now: int, choice: Choice): (map<Key, Bucket>, bool) {
    Charge(s.limits, source, now, Single, full.sender, choice.sender)
  }

  function PeerTable(s: State, full: Full, id: Key, now: int, choice: Choice): (map<Key, Bucket>, bool) {
    Charge(s.peerLimits, id, now, Single, full.peer, choice.peer)
  }

  // The checks, in order.
  function Verdict(s: State, full: Full, source: Key, now: int, m: Message, choice: Choice): Stage
    requires m.Hello?
  {
    if !m.sound then BadFields
    else if !Timely(m.stamp, now) then BadStamp
    else if !SenderTable(s, full, source, now, choice).1 then SenderLimited
    else if m.peer.None? then Unresolved
    else if !Allow(s.global, now, Shared).1 then GlobalLimited
    else if m.replay in s.replay then if IsCached(s, source, m, choice.cached) then Retransmitted else Replayed
    else if full.replay then ReplayFull
    else if full.pending then PendingFull
    else if !m.signed then BadSignature
    else if !PeerTable(s, full, m.peer.value, now, choice).1 then PeerLimited(m.peer.value)
    else if full.quota then PeerQuota(m.peer.value)
    else if !m.kemValid then BadKemKey(m.peer.value)
    else if m.offer.None? then Failed(m.peer.value)
    else Accepted(m.peer.value, s.next, m.offer.value.hash)
  }

  predicate OfHello(stage: Stage) { !stage.Idle? && !stage.FinishRefused? && !stage.Acknowledged? && !stage.Granted? }
  predicate SenderCharged(stage: Stage) { OfHello(stage) && !stage.BadFields? && !stage.BadStamp? }
  predicate GlobalCharged(stage: Stage) { SenderCharged(stage) && !stage.SenderLimited? && !stage.Unresolved? }
  predicate GlobalAdmitted(stage: Stage) { GlobalCharged(stage) && !stage.GlobalLimited? }
  predicate PeerTried(stage: Stage) {
    stage.PeerLimited? || stage.PeerQuota? || stage.BadKemKey? || stage.Failed? || stage.Accepted?
  }
  predicate PeerAdmitted(stage: Stage) { PeerTried(stage) && !stage.PeerLimited? }

  // What a hello that ended at `stage` leaves behind: every bucket it reached is charged, even when it is
  // refused there or later, and only an accepted hello is recorded.
  function HelloState(s: State, full: Full, source: Key, now: int, m: Message, choice: Choice, stage: Stage): State
    requires m.Hello? && (stage.Accepted? ==> m.offer.Some?)
  {
    State(
      if stage.Accepted? then s.pending[stage.hash := NewEntry(s, source, now, m, stage.id)] else s.pending,
      if stage.Accepted? then s.replay[m.replay := now + REPLAY_LIFE] else s.replay,
      if SenderCharged(stage) then SenderTable(s, full, source, now, choice).0 else s.limits,
      if PeerTried(stage) then PeerTable(s, full, stage.id, now, choice).0 else s.peerLimits,
      if GlobalCharged(stage) then Allow(s.global, now, Shared).0 else s.global,
      if stage.Accepted? then s.next + 1 else s.next,
      s.open)
  }

  function HelloReply(s: State, m: Message, choice: Choice, stage: Stage): Reply
    requires m.Hello? && (stage.Accepted? ==> m.offer.Some?)
  {
    if stage.Accepted? then Respond(m.offer.value.response)
    else if stage.Retransmitted? && choice.cached in s.pending then Respond(s.pending[choice.cached].response)
    else Silence
  }

  function HelloStep(s: State, full: Full, source: Key, now: int, m: Message, choice: Choice): Outcome
    requires m.Hello?
  {
    var stage := Verdict(s, full, source, now, m, choice);
    Outcome(HelloState(s, full, source, now, m, choice, stage), HelloReply(s, m, choice, stage), None, stage)
  }

  /* The steps */

  function HandleStep(s: State, source: Key, now: int, m: Message, choice: Choice): Outcome {
    match m
    case Malformed => Drop(s, Idle)
    case Foreign => Drop(PruneState(s, now), Idle)
    case Finish(_, _, _) => FinishStep(PruneState(s, now), source, m)
    case Hello(_, _, _, _, _, _, _, _, _) =>
      var p := PruneState(s, now);
      HelloStep(p, Fullness(p, m), source, now, m, choice)
  }

  // The first call of a session's Installed callback; later calls do nothing.
  function InstalledStep(s: State, ref: nat, ok: bool): State {
    if ref !in s.open then s else
    var h := s.open[ref];
    var s1 := s.(open := s.open - {ref});
    if h !in s.pending || s.pending[h].ref != ref then s1
    else if ok then s1.(pending := s.pending[h := s.pending[h].(psk := ZERO_KEY, accepted := true)])
    else s1.(pending := s.pending - {h})
  }

  function CloseStep(s: State): State {
    s.(pending := map[], replay := map[], limits := map[], peerLimits := map[])
  }

  function Step(s: State, e: Event): Outcome {
    match e
    case Handle(source, now, m, choice) => HandleStep(s, source, now, m, choice)
    case Expire(now) => Drop(PruneState(s, now), Idle)
    case Installed(_, ref, ok) => Drop(InstalledStep(s, ref, ok), Idle)
    case Close(_) => Drop(CloseStep(s), Idle)
  }

  // The choices recorded in an event are ones that iterating the real tables can make.
  ghost predicate Feasible(s: State, e: Event) {
    e.Handle? ==>
      var p := PruneState(s, e.now);
      && (e.source !in p.limits && |p.limits| >= MAX_TABLE ==> Oldest(p.limits, e.choice.sender))
      && (|p.peerLimits| >= MAX_TABLE ==> Oldest(p.peerLimits, e.choice.peer))
      && (e.msg.Hello? && (exists h :: IsCached(p, e.source, e.msg, h))
          ==> IsCached(p, e.source, e.msg, e.choice.cached))
  }
}
