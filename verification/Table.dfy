/** The server's table of pending handshakes: objects that callbacks capture, erased when they leave the table. */
module Table {
  import opened Bytes
  import opened Collections
  import opened Machine

  // One pending handshake. It is handed out at most once, so the sync.Once of the Installed closure that
  // captures it is kept with it: `called`.
  class Pending {
    const hash: Hash
    ghost const ref: nat
    ghost var handed: bool
    ghost var successor: Pending?
    var fields: Entry
    var called: bool

    constructor (hash: Hash, fields: Entry)
      requires !fields.installing
      ensures this.hash == hash && this.fields == fields && ref == fields.ref && !called && !handed && successor == null
    {
      this.hash, this.fields, this.ref, called, handed, successor := hash, fields, fields.ref, false, false, null;
    }

    // Another entry with an equal transcript hash took this one's place.
    ghost predicate Displaced()
      reads this`successor
    {
      successor != null && successor.hash == hash && successor.ref > ref
    }

    ghost predicate Erased()
      reads this`fields
    {
      fields.psk == ZERO_KEY && fields.hk == ZERO_KEY
    }
  }

  class Table {
    var pending: map<Hash, Pending>

    // The entries shown, the callbacks not called yet, every entry ever created and its number, and whether
    // an entry was ever displaced.
    ghost var entries: map<Hash, Entry>
    ghost var open: map<nat, Hash>
    var next: nat
    ghost var issued: set<Pending>
    ghost var byRef: map<nat, Pending>
    ghost var clashed: bool

    ghost predicate Held(p: Pending)
      reads this`pending
    {
      p.hash in pending && pending[p.hash] == p
    }

    // The table shows its entries.
    ghost predicate Shows()
      reads this`pending, this`entries, this`issued, issued`fields
    {
      && (forall h :: h in pending <==> h in entries)
      && (forall h :: h in pending ==>
            && pending[h] in issued && pending[h].hash == h && pending[h].fields == entries[h]
            && pending[h].ref == entries[h].ref)
    }

    // An entry is installing from the time it is handed out; `unmarked` is the one just changing.
    ghost predicate Marks(unmarked: set<Hash>)
      reads this`pending, this`entries, this`issued, issued`handed
    {
      forall h :: h in pending && h in entries && pending[h] in issued && h !in unmarked ==>
        pending[h].handed == entries[h].installing
    }

    // Entries are numbered, and a callback is outstanding until its first call.
    ghost predicate Calls()
      reads this`issued, this`open, this`next, this`byRef, issued`handed, issued`called
    {
      && (forall p :: p in issued ==>
            && p.ref < next && p.ref in byRef && byRef[p.ref] == p
            && (p.ref in open <==> p.handed && !p.called)
            && (p.ref in open ==> open[p.ref] == p.hash)
            && (p.called ==> p.handed))
      && (forall r :: r in byRef || r in open ==> r < next)
    }

    // An entry out of the table is erased, unless a later one with an equal transcript hash took its place
    // or it is yet to be placed itself.
    ghost predicate Wiped(unplaced: set<Pending>)
      reads this`pending, this`issued, issued`fields, issued`successor
    {
      forall p :: p in issued ==> Held(p) || p.Displaced() || p in unplaced || p.Erased()
    }

    // No entry was displaced unless a clash was noted.
    ghost predicate Spared()
      reads this`clashed, this`issued, issued`successor
    {
      !clashed ==> forall p :: p in issued ==> p.successor == null
    }

    ghost predicate Valid()
      reads this, issued
    {
      Shows() && Marks({}) && Calls() && Wiped({}) && Spared()
    }

    constructor ()
      ensures Valid() && entries == map[] && open == map[] && next == 0 && issued == {} && !clashed
    {
      pending, entries, open, next, issued, byRef, clashed := map[], map[], map[], 0, {}, map[], false;
    }

    // What is left of an entry out of the table.
    lemma Out(p: Pending)
      requires Wiped({}) && p in issued && !Held(p)
      ensures p.Erased() || p.Displaced()
    {
    }

    // The table points to p exactly when it shows p's number at p's hash.
    lemma Identity(p: Pending)
      requires Shows() && Calls() && p in issued
      ensures Held(p) <==> p.hash in entries && entries[p.hash].ref == p.ref
    {
    }

    // An entry is in the table once.
    lemma Apart(h: Hash)
      requires Shows() && h in pending
      ensures forall k :: k in pending && pending[k] == pending[h] ==> k == h
      ensures forall p :: p in issued && !Held(p) ==> p != pending[h]
    {
    }

    // Overwrite an entry's fields.
    method WriteFields(h: Hash, e: Entry)
      requires Shows() && Marks({}) && Wiped({}) && h in pending && e.ref == entries[h].ref
      modifies this`entries, {pending[h]}`fields
      ensures Shows() && Marks({h}) && Wiped({}) && entries == old(entries)[h := e] && pending[h].fields == e
    {
      Apart(h);
      pending[h].fields := e;
      entries := entries[h := e];
    }

    method Write(h: Hash, e: Entry)
      requires Valid() && h in pending && e.ref == entries[h].ref && e.installing == entries[h].installing
      modifies this`entries, {pending[h]}`fields
      ensures Valid() && entries == old(entries)[h := e] && pending[h].fields == e
    {
      WriteFields(h, e);
    }

    // Take the entry at h out of the table.
    method Unlink(h: Hash)
      requires Shows() && Marks({}) && Wiped({}) && h in pending
      modifies this`pending, this`entries
      ensures Shows() && Marks({}) && Wiped({old(pending)[h]})
      ensures pending == old(pending) - {h} && entries == old(entries) - {h}
    {
      pending, entries := pending - {h}, entries - {h};
    }

    method Delete(h: Hash)
      requires Valid() && h in pending && pending[h].Erased()
      modifies this`pending, this`entries
      ensures Valid() && pending == old(pending) - {h} && entries == old(entries) - {h}
    {
      Unlink(h);
    }

    // Clear an entry's secrets and delete it.
    method Erase(h: Hash)
      requires Valid() && h in pending
      modifies this`pending, this`entries, {pending[h]}`fields
      ensures Valid() && pending == old(pending) - {h} && entries == old(entries) - {h}
    {
      Write(h, pending[h].fields.(hk := ZERO_KEY, psk := ZERO_KEY));
      Delete(h);
      PutDrop(old(entries), h, old(pending[h].fields).(hk := ZERO_KEY, psk := ZERO_KEY));
    }

    method EraseAll(doomed: set<Hash>)
      requires Valid() && doomed <= pending.Keys
      modifies this`pending, this`entries, issued`fields
      ensures Valid() && pending == old(pending) - doomed && entries == old(entries) - doomed
    {
      var todo := doomed;
      while todo != {}
        invariant Valid() && todo <= pending.Keys && todo <= doomed
        invariant pending == old(pending) - (doomed - todo) && entries == old(entries) - (doomed - todo)
      {
        var h :| h in todo;
        DropMore(old(pending), doomed, todo, h);
        DropMore(old(entries), doomed, todo, h);
        Erase(h);
        todo := todo - {h};
      }
      assert doomed - todo == doomed;
    }

    method Expire(now: int)
      requires Valid()
      modifies this`pending, this`entries, issued`fields
      ensures Valid() && entries == LivePending(old(entries), now)
    {
      EraseAll(set h | h in pending && now >= pending[h].fields.expires);
    }

    // Assigning to an occupied key drops the old entry without erasing it.
    method Displace(h: Hash, ghost q: Pending)
      requires Valid() && h in pending && q.hash == h && q.ref > pending[h].ref
      modifies this`pending, this`entries, this`clashed, {pending[h]}`successor
      ensures Valid() && pending == old(pending) - {h} && entries == old(entries) - {h} && clashed
      ensures old(pending)[h].Displaced() && old(pending)[h].fields == old(pending[h].fields)
    {
      var p := pending[h];
      Unlink(h);
      NoteSuccessor(p, q);
    }

    method NoteSuccessor(p: Pending, ghost q: Pending)
      requires Shows() && Marks({}) && Calls() && Wiped({p}) && p in issued && q.hash == p.hash && q.ref > p.ref
      modifies this`clashed, p`successor
      ensures Valid() && clashed && p.Displaced()
    {
      p.successor, clashed := q, true;
    }

    method Enroll(p: Pending)
      requires Valid() && p !in issued && p.ref == next && !p.called && !p.handed && p.successor == null
      modifies this`next, this`issued, this`byRef
      ensures Shows() && Marks({}) && Calls() && Wiped({p}) && Spared() && next == old(next) + 1
              && issued == old(issued) + {p}
    {
      issued, byRef, next := issued + {p}, byRef[p.ref := p], next + 1;
    }

    // Put an entry in the table at its hash.
    method Link(p: Pending)
      requires Shows() && Marks({}) && Wiped({p}) && p in issued && p.hash !in pending
      requires p.ref == p.fields.ref && !p.fields.installing && !p.handed
      modifies this`pending, this`entries
      ensures Shows() && Marks({}) && Wiped({}) && entries == old(entries)[p.hash := p.fields]
    {
      pending, entries := pending[p.hash := p], entries[p.hash := p.fields];
    }

    method Add(p: Pending)
      requires Valid() && p !in issued && p.hash !in pending
      requires p.ref == p.fields.ref == next && !p.fields.installing && !p.called && !p.handed && p.successor == null
      modifies this`pending, this`entries, this`next, this`issued, this`byRef
      ensures Valid() && entries == old(entries)[p.hash := p.fields] && next == old(next) + 1
              && issued == old(issued) + {p}
    {
      Enroll(p);
      Link(p);
    }

    method Insert(p: Pending)
      requires Valid() && p !in issued && p.ref == p.fields.ref == next && !p.fields.installing
      requires !p.called && !p.handed && p.successor == null
      modifies this`pending, this`entries, this`next, this`issued, this`byRef, this`clashed, issued`successor
      ensures Valid() && entries == old(entries)[p.hash := p.fields] && next == old(next) + 1
              && issued == old(issued) + {p}
      ensures clashed == (old(clashed) || p.hash in old(entries))
    {
      if p.hash in pending {
        Displace(p.hash, p);
      }
      Add(p);
      PutDrop(old(entries), p.hash, p.fields);
    }

    method Open(p: Pending)
      requires Calls() && p in issued && !p.handed
      modifies this`open, p`handed
      ensures Calls() && p.handed && open == old(open)[p.ref := p.hash]
    {
      p.handed, open := true, open[p.ref := p.hash];
    }

    method MarkHanded(h: Hash)
      requires Shows() && Marks({h}) && Calls() && Wiped({}) && Spared()
      requires h in pending && !pending[h].handed && entries[h].installing
      modifies this`open, {pending[h]}`handed
      ensures Valid() && pending[h].handed && open == old(open)[pending[h].ref := h]
    {
      Apart(h);
      Open(pending[h]);
    }

    // Mark an entry as handed out; its callback is outstanding from now on.
    method HandOut(h: Hash, e: Entry)
      requires Valid() && h in pending && !entries[h].installing && e.installing && e.ref == entries[h].ref
      modifies this`entries, this`open, pending[h]
      ensures Valid() && entries == old(entries)[h := e] && open == old(open)[e.ref := h] && pending[h].handed
    {
      WriteFields(h, e);
      MarkHanded(h);
    }

    // The first call of a callback.
    method Shut(p: Pending)
      requires Calls() && p in issued && p.handed
      modifies this`open, p`called
      ensures Calls() && p.called && open == old(open) - {p.ref}
    {
      p.called, open := true, open - {p.ref};
    }

    method MarkCalled(p: Pending)
      requires Valid() && p in issued && p.handed
      modifies this`open, p`called
      ensures Valid() && p.called && open == old(open) - {p.ref}
    {
      Shut(p);
    }

    // The Installed closure of p.
    method Installed(p: Pending, ok: bool)
      requires Valid() && p in issued && p.handed
      modifies this`pending, this`entries, this`open, p
      ensures Valid() && p.called && p.handed && open == old(open) - {p.ref}
      ensures entries == if old(p.called) || !old(Held(p)) then old(entries)
                         else if ok then
                           old(entries)[p.hash := old(entries)[p.hash].(psk := ZERO_KEY, accepted := true)]
                         else old(entries) - {p.hash}
      ensures !ok && !old(p.called) ==> !Held(p)
    {
      if p.called {
        PutDrop(open, p.ref, p.hash);
        return;
      }
      MarkCalled(p);
      if p.hash !in pending || pending[p.hash] != p {
        return;
      }
      if ok {
        Write(p.hash, p.fields.(psk := ZERO_KEY, accepted := true));
      } else {
        Erase(p.hash);
      }
    }

    /* Scans of the table */

    // Another transcript of the same source has an installation outstanding.
    method Scan(h: Hash) returns (busy: bool)
      requires Valid() && h in pending
      ensures busy == Busy(entries, h)
    {
      var todo := pending.Keys;
      while todo != {}
        invariant todo <= pending.Keys
        invariant forall k :: k in entries && k !in todo && k != h && entries[k].source == entries[h].source ==>
                    !entries[k].installing || entries[k].accepted
      {
        var k :| k in todo;
        if k != h && pending[k].fields.source == pending[h].fields.source && pending[k].fields.installing
            && !pending[k].fields.accepted {
          return true;
        }
        todo := todo - {k};
      }
      return false;
    }

    method CountOwned(id: Key) returns (owned: nat)
      requires Valid()
      ensures owned == |Owned(entries, id)|
    {
      var todo := pending.Keys;
      owned := 0;
      ghost var found: set<Hash> := {};
      while todo != {}
        invariant todo <= pending.Keys && owned == |found|
        invariant forall h :: h in found <==> h in entries && h !in todo && entries[h].peer == id
      {
        var h :| h in todo;
        if pending[h].fields.peer == id {
          owned, found := owned + 1, found + {h};
        }
        todo := todo - {h};
      }
      assert found == Owned(entries, id);
    }

    // A pending entry of this source made by a packet with this digest.
    method FindCached(source: Key, digest: Hash) returns (cached: Option<Hash>)
      requires Valid()
      ensures cached.Some? ==>
                && cached.value in entries
                && entries[cached.value].source == source && entries[cached.value].digest == digest
      ensures cached.None? ==> forall h :: h in entries && entries[h].source == source ==> entries[h].digest != digest
    {
      var todo := pending.Keys;
      while todo != {}
        invariant todo <= pending.Keys
        invariant forall h :: h in entries && h !in todo && entries[h].source == source ==> entries[h].digest != digest
      {
        var h :| h in todo;
        if pending[h].fields.source == source && pending[h].fields.digest == digest {
          return Some(h);
        }
        todo := todo - {h};
      }
      return None;
    }

    // Discard the other transcripts of h's source.
    method EraseCompeting(h: Hash)
      requires Valid() && h in pending
      modifies this`pending, this`entries, issued`fields
      ensures Valid() && h in pending && pending[h] == old(pending)[h]
              && entries == old(entries) - Competing(old(entries), h)
    {
      EraseAll(set k | k in pending && k != h && pending[k].fields.source == pending[h].fields.source);
    }

    method Grant(h: Hash)
      requires Valid() && h in pending && !entries[h].installing
      modifies this`pending, this`entries, this`open, issued
      ensures Valid() && h in pending && pending[h].handed && pending[h] == old(pending)[h]
      ensures entries == (old(entries) - Competing(old(entries), h))[h := old(entries)[h].(installing := true)]
      ensures open == old(open)[old(entries)[h].ref := h]
    {
      EraseCompeting(h);
      HandOut(h, pending[h].fields.(installing := true));
    }
  }
}
