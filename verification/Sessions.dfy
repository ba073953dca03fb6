/** Whole runs: who gets a session, in which order, and what acknowledgements mean. */
module Sessions {
  import opened Bytes
  import opened Machine
  import opened Entries
  import opened Runs

  /* The laws of a step that these runs need */

  ghost predicate Explains(step: StepFn) { forall s: State, e: Event :: Explained(s, e, step(s, e)) }
  ghost predicate KeepsOrder(step: StepFn) { forall s: State, e: Event :: Orderly(s) ==> Orderly(step(s, e).state) }
  ghost predicate SpeaksOfEntries(step: StepFn) {
    forall s: State, e: Event :: GrantFrom(s, e, step(s, e)) && AckFrom(s, e, step(s, e))
  }
  ghost predicate Settles(step: StepFn) {
    forall s: State, e: Event :: Orderly(s) && step(s, e).session.Some? ==>
      e.Handle? && Settled(step(s, e).state, e.source, step(s, e).session.value.ref)
  }
  ghost predicate Accounts(step: StepFn) { forall s: State, e: Event, h: Hash :: Accounted(s, e, step(s, e).state, h) }
  ghost predicate Removes(step: StepFn) {
    forall s: State, e: Event :: Orderly(s) && e.Installed? && !e.ok && e.ref in s.open ==>
      Gone(step(s, e).state, e.ref)
  }
  ghost predicate RemembersAll(step: StepFn) {
    && (forall s: State, e: Event, key: Hash :: !e.Close? ==> Remembers(s, step(s, e).state, e.now, key))
    && (forall s: State, e: Event :: Records(s, e, step(s, e)))
  }

  lemma {:induction false} StepExplains() ensures Explains(Step) {
    forall s: State, e: Event ensures Explained(s, e, Step(s, e)) { StepExplained(s, e); }
  }

  lemma {:induction false} StepKeepsOrder() ensures KeepsOrder(Step) {
    forall s: State, e: Event | Orderly(s) ensures Orderly(Step(s, e).state) { StepOrderly(s, e); }
  }

  lemma {:induction false} StepAnswersAll() ensures SpeaksOfEntries(Step) {
    forall s: State, e: Event ensures GrantFrom(s, e, Step(s, e)) && AckFrom(s, e, Step(s, e)) { StepAnswers(s, e); }
  }

  lemma {:induction false} StepSettlesAll() ensures Settles(Step) {
    forall s: State, e: Event | Orderly(s) && Step(s, e).session.Some?
      ensures e.Handle? && Settled(Step(s, e).state, e.source, Step(s, e).session.value.ref)
    {
      StepSettles(s, e);
    }
  }

  lemma {:induction false} StepAccounts() ensures Accounts(Step) {
    forall s: State, e: Event, h: Hash ensures Accounted(s, e, Step(s, e).state, h) { StepAccounted(s, e, h); }
  }

  lemma {:induction false} StepRemoves() ensures Removes(Step) {
    forall s: State, e: Event | Orderly(s) && e.Installed? && !e.ok && e.ref in s.open
        ensures Gone(Step(s, e).state, e.ref) {
      FailureRemoves(s, e.ref);
    }
  }

  lemma {:induction false} StepRemembersAll() ensures RemembersAll(Step) {
    forall s: State, e: Event, key: Hash | !e.Close?
        ensures Remembers(s, Step(s, e).state, e.now, key) { StepRemembers(s, e, key); }
    forall s: State, e: Event ensures Records(s, e, Step(s, e)) { StepRecords(s, e); }
  }

  lemma {:induction false} RunOrderly(step: StepFn, run: seq<Event>, i: nat)
    requires KeepsOrder(step) && i <= |run|
    ensures Orderly(After(step, run[..i]))
  {
    if i > 0 {
      RunOrderly(step, run, i - 1);
      AfterNext(step, run, i - 1);
    }
  }

  // In every reachable state: one installing entry per source at most, and no PSK left in an accepted entry.
  lemma {:induction false} ReachableOrderly(run: seq<Event>)
    ensures Orderly(After(Step, run))
  {
    StepKeepsOrder();
    RunOrderly(Step, run, |run|);
    assert run[..|run|] == run;
  }

  /* Provenance */

  // Step i accepted the hello that created entry p at h.
  ghost predicate Origin(step: StepFn, run: seq<Event>, i: nat, h: Hash, p: Entry) {
    && i < |run| && run[i].Handle? && run[i].msg.Hello? && run[i].msg.offer.Some?
    && At(step, run, i).stage == Accepted(p.peer, p.ref, h)
    && run[i].msg.sound && run[i].msg.signed && run[i].msg.peer == Some(p.peer)
    && run[i].source == p.source && p.expires == run[i].now + PENDING_LIFE && p.keys == run[i].msg.keys
    && var o := run[i].msg.offer.value;
       o.hash == h && p.hk == o.hk && p.response == o.response && (p.accepted || p.psk == o.psk)
  }

  lemma {:induction false} OriginKept(step: StepFn, run: seq<Event>, i: nat, h: Hash, p: Entry, q: Entry)
    requires Origin(step, run, i, h, p) && Advanced(p, q)
    ensures Origin(step, run, i, h, q)
  {
  }

  lemma {:induction false} OriginCreated(step: StepFn, run: seq<Event>, i: nat, h: Hash)
    requires i < |run| && Created(After(step, run[..i]), run[i], At(step, run, i), h)
    ensures Origin(step, run, i, h, At(step, run, i).state.pending[h])
  {
  }

  // One step back, the entry was there, or the step created it.
  lemma {:induction false} OneBack(step: StepFn, run: seq<Event>, j: nat, h: Hash)
    requires Explains(step) && j < |run| && h in After(step, run[..j + 1]).pending
    ensures !run[j].Close?
    ensures Kept(After(step, run[..j]), After(step, run[..j + 1]), h)
            || Created(After(step, run[..j]), run[j], At(step, run, j), h)
  {
    AfterNext(step, run, j);
    assert Explained(After(step, run[..j]), run[j], At(step, run, j));
  }

  // Entry p at h, seen after j steps, was created by step i, with no Close since.
  ghost predicate Since(step: StepFn, run: seq<Event>, i: nat, j: nat, h: Hash, p: Entry) {
    i < j <= |run| && Origin(step, run, i, h, p) && forall k :: i <= k < j ==> !run[k].Close?
  }

  lemma {:induction false} SinceKept(step: StepFn, run: seq<Event>, i: nat, j: nat, h: Hash, p: Entry, q: Entry)
    requires Since(step, run, i, j, h, p) && j < |run| && !run[j].Close? && Advanced(p, q)
    ensures Since(step, run, i, j + 1, h, q)
  {
    OriginKept(step, run, i, h, p, q);
  }

  // An entry in the table goes back to an accepted hello, with no Close since.
  lemma {:induction false} EntryOrigin(step: StepFn, run: seq<Event>, j: nat, h: Hash) returns (i: nat)
    requires Explains(step) && j <= |run| && h in After(step, run[..j]).pending
    ensures Since(step, run, i, j, h, After(step, run[..j]).pending[h])
  {
    var n := j - 1;
    OneBack(step, run, n, h);
    if Kept(After(step, run[..n]), After(step, run[..j]), h) {
      i := EntryOrigin(step, run, n, h);
      SinceKept(step, run, i, n, h, After(step, run[..n]).pending[h], After(step, run[..j]).pending[h]);
    } else {
      i := n;
      OriginCreated(step, run, n, h);
      AfterNext(step, run, n);
    }
  }

  // The session of step j was created by the hello of step i.
  ghost predicate Traces(step: StepFn, run: seq<Event>, i: nat, j: nat) {
    && i < j < |run| && At(step, run, j).session.Some?
    && run[i].Handle? && run[i].msg.Hello? && run[i].msg.offer.Some? && run[j].Handle? && run[j].msg.Finish?
    && var x, m := At(step, run, j).session.value, run[i].msg;
       && At(step, run, i).stage == Accepted(x.peer, x.ref, x.hash)
       && m.sound && m.signed && m.peer == Some(x.peer)
       && run[i].source == run[j].source && run[j].now < run[i].now + PENDING_LIFE
       && x.keys == m.keys && x.hash == m.offer.value.hash && x.psk == m.offer.value.psk
       && run[j].msg.hash == x.hash && run[j].msg.known(x.peer) && run[j].msg.proves(m.offer.value.hk)
  }

  lemma {:induction false} SessionOrigin(step: StepFn, run: seq<Event>, j: nat) returns (i: nat)
    requires Explains(step) && SpeaksOfEntries(step) && j < |run| && At(step, run, j).session.Some?
    ensures Traces(step, run, i, j)
  {
    assert GrantFrom(After(step, run[..j]), run[j], At(step, run, j));
    i := EntryOrigin(step, run, j, run[j].msg.hash);
  }

  // Every session goes back to one accepted hello of the same source, under 30 seconds earlier,
  // and its identity is still authorized when it is handed out.
  lemma {:induction false} Provenance(run: seq<Event>, j: nat) returns (i: nat)
    requires j < |run| && At(Step, run, j).session.Some?
    ensures Traces(Step, run, i, j)
  {
    StepExplains();
    StepAnswersAll();
    i := SessionOrigin(Step, run, j);
  }

  /* Order of sessions */

  lemma {:induction false} SettledLater(step: StepFn, run: seq<Event>, k: nat, j: nat, source: Key, r: nat)
    requires Explains(step) && k <= j <= |run| && Settled(After(step, run[..k]), source, r)
    ensures Settled(After(step, run[..j]), source, r)
  {
    if k < j {
      SettledLater(step, run, k, j - 1, source, r);
      AfterNext(step, run, j - 1);
      SettledStep(After(step, run[..j - 1]), At(step, run, j - 1), run[j - 1], source, r);
    }
  }

  lemma {:induction false} GrantSettles(step: StepFn, run: seq<Event>, i: nat)
    requires KeepsOrder(step) && Settles(step) && i < |run| && At(step, run, i).session.Some?
    ensures run[i].Handle? && Settled(After(step, run[..i + 1]), run[i].source, At(step, run, i).session.value.ref)
  {
    AfterNext(step, run, i);
    RunOrderly(step, run, i);
  }

  // No entry is handed out twice, and the sessions of one source come in strictly increasing order of acceptance.
  lemma {:induction false} NoRollback(run: seq<Event>, i: nat, j: nat)
    requires i < j < |run| && At(Step, run, i).session.Some? && At(Step, run, j).session.Some?
    ensures At(Step, run, i).session.value.ref != At(Step, run, j).session.value.ref
    ensures run[i].Handle? && run[j].Handle?
    ensures run[i].source == run[j].source ==> At(Step, run, i).session.value.ref < At(Step, run, j).session.value.ref
  {
    StepExplains();
    StepKeepsOrder();
    StepSettlesAll();
    GrantSettles(Step, run, i);
    SettledLater(Step, run, i + 1, j, run[i].source, At(Step, run, i).session.value.ref);
    StepAnswers(After(Step, run[..j]), run[j]);
  }

  lemma {:induction false} NextGrows(step: StepFn, run: seq<Event>, i: nat, j: nat)
    requires Explains(step) && i <= j <= |run|
    ensures After(step, run[..i]).next <= After(step, run[..j]).next
  {
    if i < j {
      NextGrows(step, run, i, j - 1);
      AfterNext(step, run, j - 1);
      assert Explained(After(step, run[..j - 1]), run[j - 1], At(step, run, j - 1));
    }
  }

  // Acceptance numbers follow the order of acceptance.
  lemma {:induction false} AcceptanceOrder(run: seq<Event>, i: nat, j: nat)
    requires i < j < |run| && At(Step, run, i).stage.Accepted? && At(Step, run, j).stage.Accepted?
    ensures At(Step, run, i).stage.ref < At(Step, run, j).stage.ref
  {
    StepExplained(After(Step, run[..i]), run[i]);
    StepExplained(After(Step, run[..j]), run[j]);
    AfterNext(Step, run, i);
    StepExplains();
    NextGrows(Step, run, i + 1, j);
  }

  /* Installation outcomes */

  // Step i was the first call of the Installed callback for acceptance r, with this result.
  ghost predicate Reported(step: StepFn, run: seq<Event>, i: nat, r: nat, ok: bool) {
    i < |run| && run[i].Installed? && run[i].ref == r && run[i].ok == ok && r in After(step, run[..i]).open
  }

  lemma {:induction false} CommitOf(step: StepFn, run: seq<Event>, j: nat, h: Hash) returns (i: nat)
    requires Explains(step) && Accounts(step)
    requires j <= |run| && h in After(step, run[..j]).pending && After(step, run[..j]).pending[h].accepted
    ensures i < j && Reported(step, run, i, After(step, run[..j]).pending[h].ref, true)
  {
    AfterNext(step, run, j - 1);
    var s, e := After(step, run[..j - 1]), run[j - 1];
    assert Explained(s, e, step(s, e));
    assert Accounted(s, e, step(s, e).state, h);
    if Commits(s, e, step(s, e).state.pending[h]) {
      i := j - 1;
    } else {
      i := CommitOf(step, run, j - 1, h);
    }
  }

  // An acknowledgement without a session answers only a transcript whose installation was reported successful.
  lemma {:induction false} AcknowledgedOnlyCommitted(run: seq<Event>, j: nat) returns (i: nat)
    requires j < |run| && At(Step, run, j).reply.Acknowledge? && At(Step, run, j).session.None?
    ensures At(Step, run, j).reply.hash in After(Step, run[..j]).pending
    ensures i < j && Reported(Step, run, i, After(Step, run[..j]).pending[At(Step, run, j).reply.hash].ref, true)
  {
    StepAnswers(After(Step, run[..j]), run[j]);
    StepExplains();
    StepAccounts();
    i := CommitOf(Step, run, j, run[j].msg.hash);
  }

  lemma {:induction false} GoneLater(step: StepFn, run: seq<Event>, k: nat, j: nat, r: nat)
    requires Explains(step) && k <= j <= |run| && Gone(After(step, run[..k]), r)
    ensures Gone(After(step, run[..j]), r)
  {
    if k < j {
      GoneLater(step, run, k, j - 1, r);
      AfterNext(step, run, j - 1);
      GoneStep(After(step, run[..j - 1]), At(step, run, j - 1), run[j - 1], r);
    }
  }

  lemma {:induction false} FailureLeaves(step: StepFn, run: seq<Event>, i: nat, r: nat)
    requires KeepsOrder(step) && Removes(step) && Reported(step, run, i, r, false)
    ensures Gone(After(step, run[..i + 1]), r)
  {
    AfterNext(step, run, i);
    RunOrderly(step, run, i);
  }

  // After a failed installation its transcript yields neither a session nor an acknowledgement again.
  lemma {:induction false} FailureIsFinal(run: seq<Event>, i: nat, r: nat, j: nat)
    requires i < j < |run| && Reported(Step, run, i, r, false)
    ensures At(Step, run, j).session.Some? ==> At(Step, run, j).session.value.ref != r
    ensures At(Step, run, j).reply.Acknowledge? ==>
              && At(Step, run, j).reply.hash in After(Step, run[..j]).pending
              && After(Step, run[..j]).pending[At(Step, run, j).reply.hash].ref != r
  {
    StepExplains();
    StepKeepsOrder();
    StepRemoves();
    FailureLeaves(Step, run, i, r);
    GoneLater(Step, run, i + 1, j, r);
    StepAnswers(After(Step, run[..j]), run[j]);
  }

  ghost predicate Opens(step: StepFn) { forall s: State, e: Event, r: nat :: OpenFrom(s, step(s, e), r) }

  lemma {:induction false} OpenOrigin(step: StepFn, run: seq<Event>, j: nat, r: nat) returns (i: nat)
    requires Opens(step) && j <= |run| && r in After(step, run[..j]).open
    ensures i < j && At(step, run, i).session.Some?
    ensures At(step, run, i).session.value.ref == r
            && At(step, run, i).session.value.hash == After(step, run[..j]).open[r]
  {
    AfterNext(step, run, j - 1);
    var s, e := After(step, run[..j - 1]), run[j - 1];
    assert OpenFrom(s, step(s, e), r);
    if r in s.open && step(s, e).state.open[r] == s.open[r] {
      i := OpenOrigin(step, run, j - 1, r);
    } else {
      i := j - 1;
    }
  }

  lemma {:induction false} SameAcceptance(run: seq<Event>, i: nat, j: nat)
    requires i < |run| && j < |run| && At(Step, run, i).stage.Accepted? && At(Step, run, j).stage.Accepted?
    requires At(Step, run, i).stage.ref == At(Step, run, j).stage.ref
    ensures i == j
  {
    if i < j { AcceptanceOrder(run, i, j); } else if j < i { AcceptanceOrder(run, j, i); }
  }

  // Behind every acknowledgement there is a session for the same transcript, handed out then or before.
  lemma {:induction false} AckHasSession(run: seq<Event>, j: nat) returns (i: nat)
    requires j < |run| && At(Step, run, j).reply.Acknowledge?
    ensures i <= j && At(Step, run, i).session.Some?
            && At(Step, run, i).session.value.hash == At(Step, run, j).reply.hash
  {
    StepAnswers(After(Step, run[..j]), run[j]);
    if At(Step, run, j).session.Some? {
      i := j;
    } else {
      i := CommittedSession(run, j);
    }
  }

  lemma {:induction false} CommittedSession(run: seq<Event>, j: nat) returns (i: nat)
    requires j < |run| && At(Step, run, j).reply.Acknowledge? && At(Step, run, j).session.None?
    ensures i < j && At(Step, run, i).session.Some?
            && At(Step, run, i).session.value.hash == At(Step, run, j).reply.hash
  {
    var k := AcknowledgedOnlyCommitted(run, j);
    var h := At(Step, run, j).reply.hash;
    forall s: State, e: Event, r: nat ensures OpenFrom(s, Step(s, e), r) { StepOpens(s, e, r); }
    i := OpenOrigin(Step, run, k, After(Step, run[..j]).pending[h].ref);
    StepExplains();
    var a := EntryOrigin(Step, run, j, h);
    var b := Provenance(run, i);
    SameAcceptance(run, a, b);
  }

  /* At most one acceptance per hello */

  lemma {:induction false} Remembered(step: StepFn, run: seq<Event>, i: nat, j: nat)
    requires RemembersAll(step) && Clocked(run) && i < j <= |run| && At(step, run, i).stage.Accepted?
    requires forall k :: i <= k < j ==> !run[k].Close?
    requires run[j - 1].now < run[i].now + REPLAY_LIFE
    ensures run[i].Handle? && run[i].msg.Hello?
    ensures var replay := After(step, run[..j]).replay;
            run[i].msg.replay in replay && replay[run[i].msg.replay] == run[i].now + REPLAY_LIFE
  {
    AfterNext(step, run, j - 1);
    assert Records(After(step, run[..i]), run[i], At(step, run, i));
    if i < j - 1 {
      Remembered(step, run, i, j - 1);
      assert Remembers(After(step, run[..j - 1]), At(step, run, j - 1).state, run[j - 1].now, run[i].msg.replay);
    }
  }

  // Two hellos with the same replay key and stamp are never both accepted, however far apart they arrive.
  lemma {:induction false} AcceptedOnce(run: seq<Event>, i: nat, j: nat)
    requires Clocked(run) && i < j < |run|
    requires forall k :: i <= k < j ==> !run[k].Close?
    requires run[i].Handle? && run[i].msg.Hello? && run[j].Handle? && run[j].msg.Hello?
    requires run[i].msg.replay == run[j].msg.replay && run[i].msg.stamp == run[j].msg.stamp
    ensures !(At(Step, run, i).stage.Accepted? && At(Step, run, j).stage.Accepted?)
  {
    if At(Step, run, i).stage.Accepted? && At(Step, run, j).stage.Accepted? {
      StepRecords(After(Step, run[..i]), run[i]);
      StepRecords(After(Step, run[..j]), run[j]);
      StepRemembersAll();
      Remembered(Step, run, i, j);
    }
  }
}
