# Quantumcat: a verified model

Quantumcat bootstraps a WireGuard tunnel through a relay with a post-quantum handshake, keeps the tunnel's lease
alive, and carries UDP and Mosh over it. This project models the code whose correctness depends on whole runs:

- **The bootstrap handshake.** `Machine` is the server's control flow, one atomic step per locked call (`Handle`,
  `Expire`, the `Installed` callback, `Close`) on decoded messages. `Handshake` says what each packet's bytes mean to
  it, and `Wire` and `Crypto` hold the formats and the key schedule. `Client` is the client and its retry loop.
  `Table` and `Server` are the server as the object it is, with entries that callbacks capture and loops over its
  tables; every method is proved to take `Machine`'s step, and `Service` proves that whatever such an object does is a
  run of `Machine` over the inputs it was given. `Checks` says of each call when it answers, what it hands out and
  what it leaves, in terms of the message and the tables it meets. The run theorems are in `Budgets`, `Rates`,
  `Windows`, `Senders`, `Crowding`, `Bounds`, `Entries`, `Sessions`, `Packets`, `Pruning`, `Completeness`, `Success`,
  `Agreement`, `Exchange` and `Erasure`.
- **UDP fragmentation.** `Fragments` is the frame format and the receiver's step, `Reassembly` what it may deliver,
  `Delivery` when it does, and `Framed` the connection object with its reused buffer.
- **Lease renewal.** `Renewal` is the watch loop over any clock readings and callback outcomes.
- **UDP forwarding.** `Forwarder` interleaves the reader and a worker per local source.
- **Shell quoting.** `Shell` has a lexer for the shell's quoting rules and the command builder it must undo.

Conventions. Time is one integer clock in nanoseconds. Cryptographic primitives are the functions of a `Suite` value;
what is assumed of them (decapsulation inverts encapsulation, a signature verifies, no collision among the values of
one run) is a hypothesis of the lemma that needs it. Where Go iterates a map, the choices the order can make are a
`Choice` in the event, and `Feasible` says which choices the code can make. Authorization may change between any two
calls: each delivery carries the set in force.

Check everything with `dafny verify dfyconfig.toml`.

## Model

| member | source | states |
|---|---|---|
| Agreement.BootstrapAgrees | internal/transport/transport.go:68-113 | any number of clients and one server over a network that loses, duplicates, delays and reorders frames, the server expiring, installing and closing at any time: if a client's loop returns a PSK, the server handed out exactly one session for that client's transcript, with the same PSK, the client's PeerID and its keys |
| Agreement.ActionSound | internal/transport/transport.go:86-112 | every action of that system keeps: frames in the network come from a client or from a server step, and a finishing client completed on a ServerHello that was really sent |
| Agreement.OneSession | internal/protocol/handshake.go:263-300 | no two sessions of a run carry the same transcript hash |
| Agreement.SessionMatches | internal/protocol/handshake.go:387-406 | the session issued for a client's transcript carries the PSK the client derived, its identity and its keys |
| Agreement.KeyTellsSession | internal/protocol/handshake.go:22-41 | two sessions have one PSK exactly when they have one encapsulated secret and one transcript, where HKDF does not collide on the two |
| Crypto.KeysBind | internal/protocol/handshake.go:22-41 | a PSK and a confirmation key each stand for one secret and one transcript hash, and are never equal, where HKDF with the salt and labels of the code does not collide on the two derivations compared |
| Crypto.ProofsBind | internal/protocol/handshake.go:42-48 | a proof stands for one key, one of its three purposes and one transcript hash, where HMAC does not collide on the two |
| Crypto.NamesBind | internal/protocol/wire.go:59-64 | a PeerID stands for one public key and a tag under a nonce for one PeerID, where the hashes do not collide on the two |
| Erasure.NeverDisplaces | internal/protocol/handshake.go:352-407 | over any inputs, Close included, an accepted hello's transcript hash is never one already pending, as long as SHA-384 and the peer tags do not collide on the delivered hellos |
| Erasure.CollisionDisplaces | internal/protocol/handshake.go:406 | that condition is needed: of two honest hellos within 30 s the second displaces an entry exactly when its transcript hash equals the first one's or that of an older entry still live |
| Erasure.DisplacesExactly | internal/protocol/handshake.go:387-406 | in any state an honest client's hello displaces an entry exactly when a live one has its transcript hash |
| Service.Service.OutIsErased | internal/protocol/handshake.go:175-205 | whatever the server object has been through, under that condition: every entry ever created is still in its table or has its confirmation key and PSK zeroed |
| Budgets.ReplayCapNeverBites | internal/protocol/handshake.go:352-356 | under a nondecreasing clock no hello of any run is refused because the replay table is full |
| Budgets.StepFunded | internal/protocol/handshake.go:338-356 | every step keeps the accounting behind it: each live replay stamp and identity stamp was paid for with a token of the shared bucket |
| Budgets.FewPeers | internal/protocol/handshake.go:361-363 | after pruning at most 128 identities have a bucket, so eviction from the identity table is unreachable |
| Rates.Window | internal/protocol/handshake.go:211-223 | for any bucket a step function charges, refills and resets lawfully: in every window the admitted calls are at most one burst, one more per reset, and what the window's time refills |
| Windows.GlobalWindow | internal/protocol/handshake.go:338-341 | in every window of T seconds of a run at most 64 + 64T hellos pass the shared bucket |
| Windows.PeerWindow | internal/protocol/handshake.go:361-367 | in every window of T seconds at most 4(1 + c) + 4T hellos of one identity pass its bucket, pruning included, where c counts the Close calls in it; so 4 + 4T without Close |
| Senders.SenderWindow | internal/protocol/handshake.go:319-328 | in every window of T seconds at most 4(1 + r) + 4T hellos of one sender pass its bucket, where r counts the Close calls and the evictions of that sender in it; so 4 + 4T without either |
| Senders.EvictionRefills | internal/protocol/handshake.go:319-321 | an eviction hands out a burst: the oldest sender, evicted from a full table to make room, has a full bucket again |
| Crowding.EvictionDoubles | internal/protocol/handshake.go:319-328 | the count of evictions is needed: against any server, at any instant, there is a run of 4104 well-formed packets, with choices the code can make, in which eight hellos of one sender pass its bucket of four at that instant |
| Crowding.StrayReads | internal/protocol/handshake.go:307-334 | each of those packets is read as a sound, timely hello whose tag names nobody |
| Bounds.TableBounds | internal/protocol/handshake.go:319-376 | in every reachable state: at most 256 pending, 8 per identity, 19264 replay entries, 4096 senders, 128 identities, and every bucket between 0 and its size |
| Bucket.LevelLater | internal/protocol/handshake.go:211-217 | refilling is additive in time: waiting in two steps or in one gives the same tokens |
| Bucket.LevelExactly | internal/protocol/handshake.go:211-217 | a new bucket is full, and 4 or 64 tokens come back every second up to that many |
| Bucket.AllowSound | internal/protocol/handshake.go:211-223 | a call is allowed exactly when the refilled bucket holds a token, and then it costs one |
| Bucket.AllowExactly | internal/protocol/handshake.go:211-223 | tokens, verdict and time a call leaves, for any bucket and clock |
| Bucket.ChargeExactly | internal/protocol/handshake.go:319-328 | one access changes the key's bucket only, and removes the victim only to make room for a key that is not there |
| Bucket.PruneLevel | internal/protocol/handshake.go:246-252 | pruning a bucket never changes the tokens its key is granted |
| Pruning.PruningUnnoticed | internal/protocol/handshake.go:246-252 | absent eviction of senders, every message of a run gets the same answer as from tables that are never pruned |
| Pruning.ExpireUnnoticed | internal/protocol/handshake.go:175-197 | inserting an Expire no later than the clock of what follows changes no later reply, session or refusal |
| Checks.FinishExactly | internal/protocol/handshake.go:253-300 | a finish is answered exactly when its hash names a live entry of its own source, its identity is authorized, its proof is right, and the entry is accepted or can be granted; a session is handed out exactly in the latter case, with the entry's own values |
| Checks.GrantsExactly | internal/protocol/handshake.go:266-300 | a grant marks its entry, removes exactly the other entries of its source and opens its callback; any other finish only prunes |
| Checks.HelloExactly | internal/protocol/handshake.go:302-409 | a hello is accepted exactly when it passes every check, with every limit in numbers, and answered exactly when it is accepted or repeats a packet still answered; each bucket is charged exactly when the checks before it pass, and only an accepted hello is recorded, for 30 s and 300 s |
| Checks.InstallsExactly | internal/protocol/handshake.go:284-299 | a first Installed(true) accepts its entry and forgets the PSK, a first Installed(false) removes it, and nothing else changes |
| Checks.ExpiresExactly | internal/protocol/handshake.go:175-197 | exactly the entries, replay records and buckets that are over at that time are gone |
| Checks.ClosesExactly | internal/protocol/handshake.go:198-209 | every table is empty, the shared bucket and the callbacks handed out stay |
| Sessions.ReachableOrderly | internal/protocol/handshake.go:253-300 | in every reachable state: at most one entry per source is installing, an entry's callback is outstanding exactly while it is installing and not accepted, and an accepted entry keeps no PSK |
| Entries.StepOrderly | internal/protocol/handshake.go:253-300 | each step of any kind keeps that invariant |
| Entries.StepExplained | internal/protocol/handshake.go:234-409 | every entry after a step was there before, only advanced, or was created by a sound, signed, timely hello accepted in that step |
| Sessions.Provenance | internal/protocol/handshake.go:253-300 | every session traces to one accepted hello of the same source, under 30 s earlier, for an identity still authorized at the finish |
| Packets.SignedProvenance | internal/protocol/handshake.go:334-360 | the same in bytes: that hello's signature verified under the key authorized for the session's PeerID, and the session carries its keys |
| Packets.AcknowledgedBytes | internal/protocol/handshake.go:253-263 | every acknowledgement answers a ClientFinish packet from its entry's source, in time, for an identity authorized at its arrival, with the hash and the proof only the entry's confirmation key gives; its bytes are the hash and the server's proof |
| Sessions.NoRollback | internal/protocol/handshake.go:266-282 | each entry yields at most one session, and each source's sessions come in strictly increasing order of acceptance |
| Sessions.AcceptanceOrder | internal/protocol/handshake.go:405-408 | later acceptances have larger numbers |
| Sessions.AcknowledgedOnlyCommitted | internal/protocol/handshake.go:259-262 | an acknowledgement without a session is given only for an entry whose first Installed call said true |
| Sessions.FailureIsFinal | internal/protocol/handshake.go:284-299 | after a first Installed(false) the entry never yields an acknowledgement or a session again |
| Sessions.AckHasSession | internal/protocol/handshake.go:253-300 | every acknowledgement belongs to a transcript a session was handed out for |
| Sessions.AcceptedOnce | internal/protocol/handshake.go:310-356 | over any stretch of a run without Close, however long, one replay key with one stamp is accepted at most once, even after its replay entry is gone |
| Packets.PacketOnce | internal/protocol/handshake.go:310-356 | the same in bytes: one ClientHello packet creates at most one pending entry, whenever, from whatever set of authorized peers |
| Completeness.HonestOffer | internal/protocol/handshake.go:302-409 | an authorized client with tokens and room: its packet is answered, and Complete succeeds on the answer with the server's PSK |
| Completeness.HonestFinish | internal/protocol/handshake.go:253-300 | its finish within 30 s yields the session with its identity, keys and that PSK, and the acknowledgement it waits for |
| Completeness.HonestRetransmission | internal/protocol/handshake.go:343-351 | the same hello again gets the identical response, with no new pending entry, replay entry or identity charge |
| Success.HonestFinishLater | internal/protocol/handshake.go:253-300 | the finish need not come next: after any traffic within 30 s that neither grants another transcript of that source nor closes the server, it yields the session and the acknowledgement, as long as SHA-384 and the tags do not collide on what was delivered |
| Success.HonestRepeatLater | internal/protocol/handshake.go:343-351 | the same for the repeated hello: the identical response, with no new pending entry, replay entry or identity charge |
| Success.CalmIsHarmless | internal/protocol/handshake.go:343-356 | nothing accepted in that traffic has the packet's digest or its transcript hash |
| Success.LateFinish | internal/protocol/handshake.go:253-300 | the first of these on decoded messages: an accepted hello's entry survives harmless traffic until its finish |
| Success.LateRepeat | internal/protocol/handshake.go:343-351 | the second on decoded messages: until then its replay key is remembered and its entry found |
| Success.AcknowledgedAgain | internal/protocol/handshake.go:259-262 | a lost acknowledgement is repaired: after a committed installation the same finish within the entry's 30 s is acknowledged again, without a second session, whatever traffic came in between that neither grants its source another session, nor has its hash accepted anew, nor closes the server |
| Exchange.BootstrapReturns | internal/transport/transport.go:68-113 | an honest client and server have a behaviour in which the bootstrap returns the server's PSK, that behaviour meets all that the agreement theorem assumes, and by that theorem the server handed out a session with that PSK and PeerID |
| Exchange.ExchangeExists | internal/transport/transport.go:68-113 | there are a server, a client and deliveries that meet what that result requires |
| Completeness.HelloReads | internal/protocol/handshake.go:84-95 | the server reads from a client's packet exactly what the client put in it, and its signature verifies |
| Handshake.HelloMeans | internal/protocol/handshake.go:302-360 | what the server takes from a hello is what its bytes say: stamp, keys, the identity behind the tag, and whose key verified it |
| Handshake.FieldsExactly | internal/protocol/handshake.go:307-318 | fields are acceptable exactly when the source and server are named right, the discovery key is not zero and the reserved bytes are; stamp, keys, digest and KEM key are read from their offsets |
| Handshake.SignerExactly | internal/protocol/handshake.go:329-360 | the identity is the tag's, and the hello counts as signed exactly when that identity's key of full size verifies the hello's frame under the client context |
| Handshake.OffersExactly | internal/protocol/handshake.go:377-407 | the offer is the ServerHello of this server over this transcript, signed under the server context, with keys from the encapsulated secret and the proof of the confirmation key |
| Handshake.FinishesExactly | internal/protocol/handshake.go:253-258 | a finish proves exactly the keys whose client proof over its hash it carries, and knows exactly the identities authorized |
| Handshake.KindsExactly | internal/protocol/handshake.go:227-233 | which packets are hellos, finishes, or neither |
| Handshake.ReplayKeysBind | internal/protocol/handshake.go:342 | a replay key stands for one identity and nonce, where SHA-384 does not collide on the two |
| Handshake.LooksUpFirst | internal/protocol/wire.go:73-83 | the first entry for an identity decides its key |
| Handshake.ResolvesFirst | internal/protocol/handshake.go:415-425 | the first identity whose tag matches is resolved, if its key hashes to it |
| Handshake.ResolveSound | internal/protocol/handshake.go:415-425 | a resolved identity is an authorized one whose tag under the nonce is the hello's |
| Wire.FrameOfParse | internal/protocol/wire.go:87-120 | a frame that parses is the frame of what was parsed, and has its type's size |
| Wire.ParsesExactly | internal/protocol/wire.go:87-120 | which byte strings are frames: name, version, length field, and the exact size of each type |
| Wire.ParseOfFrame | internal/protocol/wire.go:87-120 | a framed payload parses back to itself exactly when it has its type's size |
| Wire.HelloFields | internal/protocol/handshake.go:307-342 | every slice the server takes of a hello is the field the client wrote there |
| Wire.ServerFields | internal/protocol/handshake.go:104-124 | every slice the client takes of a ServerHello is the field the server wrote there |
| Wire.TranscriptFields | internal/protocol/wire.go:140-146 | the transcript: domain, version, server, its keys, nonce, ciphertext and hello at their offsets |
| Wire.TranscriptInjective | internal/protocol/wire.go:140-146 | equal transcript bytes come from equal hello, server id, keys, nonce and ciphertext |
| Client.Bootstrap | internal/transport/transport.go:79-112 | the select loop computes the loop function over any signals, and sends nothing but its hello and its finish |
| Client.CompletesOnce | internal/protocol/handshake.go:113-130 | after a successful Complete every later ServerHello is refused and changes nothing |
| Client.CompletesOnly | internal/protocol/handshake.go:98-131 | Complete succeeds only on a ServerHello that names this server and its transport keys, whose signature verifies under the server's key over this client's transcript, and whose proof shows the confirmation key; it then yields exactly the PSK, finish and acknowledgement of that transcript and secret, and otherwise changes nothing |
| Client.CompletesOn | internal/protocol/handshake.go:98-131 | and it does succeed on every such ServerHello while the KEM key lives |
| Client.StartsExactly | internal/protocol/handshake.go:59-95 | a client starts exactly with a server key of full size, with its hello, a live KEM key and nothing to expect |
| Client.LoopExactly | internal/transport/transport.go:86-112 | signal by signal: what is sent, when the loop turns to finishing, when it returns which key, and when it stops |
| Client.SendsExactly | internal/transport/transport.go:79-112 | while the loop runs it has sent one frame for every tick, and one more, the finish, when it completed |
| Client.ReturnsOnly | internal/transport/transport.go:92-96 | a key is returned only for the acknowledgement that the loop, finishing, was waiting for |
| Client.AcceptsExactly | internal/protocol/handshake.go:128-132 | a completed client accepts exactly the type-4 frame with its transcript's hash and the proof under its confirmation key; a client that has not completed accepts nothing |
| Client.Attempt.OnServerHello | internal/protocol/handshake.go:98-131 | the object's Complete: result and new state are those of the function the agreement theorem is about |
| Service.Service.Handle | internal/protocol/handshake.go:227-409 | a call appends its delivery to the object's inputs; the object's state is where the run of its inputs leads, its reply and session are the last step's, and its choices are feasible |
| Service.Service.Expire | internal/protocol/handshake.go:175-197 | appends an Expire step to the object's inputs, whose run leads to its state |
| Service.Service.Installed | internal/protocol/handshake.go:284-299 | appends an Installed step to the object's inputs, whose run leads to its state |
| Service.Service.Close | internal/protocol/handshake.go:198-209 | appends a Close step, and leaves every entry ever created erased, or displaced by a later one with an equal transcript hash |
| Server.Server.Handle | internal/protocol/handshake.go:227-409 | on any packet the object takes the machine's step for it: new tables, reply bytes and session agree, and the choices made are ones iteration can make |
| Server.Server.HandleFinish | internal/protocol/handshake.go:253-301 | the finish branch: lookup, source, authorization and proof checks, and the outstanding-installation rule |
| Server.Server.HandleHello | internal/protocol/handshake.go:302-409 | the hello branch: every check in order, every bucket charged where it is reached, recorded only if accepted |
| Server.Server.Decode | internal/protocol/handshake.go:307-400 | reading fields, resolving the tag and verifying give the message the machine is told |
| Server.Server.Expire | internal/protocol/handshake.go:175-197 | takes the machine's Expire step |
| Server.Server.Close | internal/protocol/handshake.go:198-209 | takes the machine's Close step and leaves every entry erased, or displaced by a later one with an equal hash |
| Server.Server.Installed | internal/protocol/handshake.go:284-299 | takes the machine's Installed step; a first failure leaves the entry erased, or displaced by a later one with an equal hash |
| Server.EvictOldest | internal/protocol/handshake.go:427-438 | removes an entry with minimal start, whenever no start is the zero time |
| Server.ChargeTable | internal/protocol/handshake.go:319-328 | one access to a rate table: a new key in a full table evicts an oldest entry, and the key's bucket is refilled and charged |
| Server.ExpireReplay | internal/protocol/handshake.go:241-245 | keeps exactly the replay entries not yet due |
| Server.PruneBuckets | internal/protocol/handshake.go:246-252 | keeps exactly the buckets at most a second old |
| Server.ResolveTag | internal/protocol/handshake.go:415-425 | finds the first authorized peer whose tag matches |
| Server.LookupKey | internal/protocol/wire.go:73-83 | finds the first key authorized for an identity |
| Server.RunsStart | internal/protocol/handshake.go:427-438 | in every run under a nonzero clock no bucket starts at the zero time, so eviction does find the oldest |
| Table.Table.Erase | internal/protocol/handshake.go:234-240 | an entry leaves the table with its key and PSK zeroed, and every other entry and callback stays as it was |
| Table.Table.EraseAll | internal/protocol/handshake.go:274-280 | the same for a set of entries |
| Table.Table.Displace | internal/protocol/handshake.go:406 | assigning to an occupied hash is the one way an entry leaves unerased: its fields stay as they were, and a later entry with an equal hash took its place |
| Table.Table.Insert | internal/protocol/handshake.go:401-406 | a new entry at its hash, under a number no entry ever had |
| Table.Table.Grant | internal/protocol/handshake.go:269-300 | competitors of the source are erased, the entry is marked, and its callback is outstanding |
| Table.Table.Installed | internal/protocol/handshake.go:284-299 | the first call commits or erases the entry if the table still points to that very object; later calls do nothing |
| Table.Table.Scan | internal/protocol/handshake.go:269-273 | tells whether another transcript of the source has an installation outstanding |
| Table.Table.CountOwned | internal/protocol/handshake.go:368-376 | counts the identity's pending entries |
| Table.Table.FindCached | internal/protocol/handshake.go:343-351 | finds a pending entry of the source made by the same packet, if there is one |
| Fragments.DecodeOfEncode | internal/proxy/udp_frame.go:44-64 | a proper fragment's frame decodes to it |
| Fragments.EncodeOfDecode | internal/proxy/udp_frame.go:44-64 | a frame that decodes is the frame of a proper fragment |
| Fragments.EncodesExactly | internal/proxy/udp_frame.go:133-143 | the layout of a frame, byte by byte |
| Fragments.CutsExactly | internal/proxy/udp_frame.go:131-142 | a datagram is cut into as few pieces of 1056 bytes as hold it, at least one |
| Fragments.DecodesExactly | internal/proxy/udp_frame.go:44-64 | which frames are read, and as what |
| Reassembly.OnlyWhatWasWritten | internal/proxy/udp_frame.go:38-106 | whatever fragments of up to 2^64 writes arrive, in any order, any number of times, at any times: a delivered datagram is exactly the one its completing fragment was cut from |
| Reassembly.FramesDeliverWrites | internal/proxy/udp_frame.go:38-153 | the same of frames as bytes |
| Reassembly.ReceiveFaithful | internal/proxy/udp_frame.go:68-105 | every call keeps each assembly filled only with slices of one written datagram, with its bitmap and countdown exact |
| Reassembly.SentById | internal/proxy/udp_frame.go:130-137 | up to 2^64 writes have distinct ids |
| Delivery.DeliveredOnLast | internal/proxy/udp_frame.go:68-105 | from the fragment that starts an assembly, within two seconds and without eviction: held with exactly what arrived, and delivered in the very call that brings the last missing fragment |
| Delivery.SingleDelivered | internal/proxy/udp_frame.go:65-67 | a datagram of one fragment is delivered by it in any state |
| Delivery.AtMostEight | internal/proxy/udp_frame.go:69-86 | at most eight assemblies are ever held |
| Delivery.EvictedByEight | internal/proxy/udp_frame.go:73-86 | with increasing start times an assembly is evicted only when eight that started after it are held |
| Delivery.JoinsExactly | internal/proxy/udp_frame.go:88-106 | a fragment of an assembly held: one of another size or seen before changes nothing, any other joins it, and the last one delivers |
| Delivery.StartsExactly | internal/proxy/udp_frame.go:68-100 | a fragment of none held starts an assembly for two seconds, in place of one when eight are held |
| Delivery.PassesExactly | internal/proxy/udp_frame.go:38-67 | a dropped frame or a whole datagram leaves exactly what is held and not yet over |
| Delivery.HeldBriefly | internal/proxy/udp_frame.go:38-43 | whatever is held after a call was started less than two seconds before it |
| Framed.Connection.Write | internal/proxy/udp_frame.go:124-153 | advances the counter modulo 2^64 and sends exactly the datagram's frames, or a prefix of them when the connection fails, from one reused buffer |
| Framed.Connection.Accept | internal/proxy/udp_frame.go:38-106 | one step of the receiver, with a fair choice of victim |
| Framed.Connection.Read | internal/proxy/udp_frame.go:154-173 | reads frames until one completes a datagram, reports one that does not fit, and forgets all assemblies on failure |
| Framed.Fill | internal/proxy/udp_frame.go:139-143 | the reused buffer's first bytes are the fragment's frame, whatever an earlier fragment left behind |
| Framed.Evict | internal/proxy/udp_frame.go:73-83 | removes an assembly with the least expiry |
| Framed.ExpireAll | internal/proxy/udp_frame.go:39-43 | keeps exactly the assemblies not yet due |
| Framed.Assemble | internal/proxy/udp_frame.go:100-105 | copying each chunk to its offset joins a complete assembly's chunks |
| Framed.WritesNumbered | internal/proxy/udp_frame.go:130-151 | the ids and frames of a connection's writes are the ones the reassembly theorems speak of |
| Framed.ReadsWhatWasWritten | internal/proxy/udp_frame.go:124-173 | one end writes, the other reads: whatever the network does with the frames, each datagram a Read returns or reports as too long is the one written whose frame came last, whole, for every Read in turn |
| Renewal.AlwaysDue | internal/transport/renew.go:29-89 | at every loop head of every run, whatever the clock does between ticks, the next renewal is due within the interval of the loop's clock, or within the retry delay while recovering |
| Renewal.JumpForcesAttempt | internal/transport/renew.go:38-54 | a gap over 15 s, a step back or a failed probe of a loop that is well forces an attempt in the same iteration, which begins with the refresh |
| Renewal.ProbesExactly | internal/transport/renew.go:45-53 | the first call of an iteration is a probe exactly when the loop is not recovering, there was no gap, and the probe is due |
| Renewal.AttemptsExactly | internal/transport/renew.go:57-76 | when an attempt is made, and which calls it makes in which order, each after success of those before |
| Renewal.LeavesExactly | internal/transport/renew.go:50-88 | what an iteration leaves for the next one |
| Renewal.NeverSilent | internal/transport/renew.go:27-61 | with timely ticks a loop that is well is never silent for more than 55 s: by then it has probed or attempted a renewal |
| Renewal.ProbeDueSoon | internal/transport/renew.go:27-89 | at every head of a loop that is well the next probe is at most 30 s away |
| Renewal.NoEarlyAttempt | internal/transport/renew.go:57-88 | no attempt comes early: unless the clock jumps or a probe fails, it waits for the interval after a success and for the retry delay after a failure |
| Renewal.NoEarlyStart | internal/transport/renew.go:27-29 | nor does the first attempt of a loop just started |
| Renewal.NoEarlyProbe | internal/transport/renew.go:45-53 | between two probes of a loop that attempts nothing there are at least 30 s |
| Renewal.RecoveryEnds | internal/transport/renew.go:62-87 | recovery ends exactly when refresh, renewal and probe succeed in that order |
| Renewal.NextAttempt | internal/transport/renew.go:38-61 | from any loop head with timely ticks the next attempt starts within the interval plus 25 s |
| Renewal.AttemptSpacing | internal/transport/renew.go:12-16 | with Maintain's parameters each attempt starts less than an hour after the one before it ended, and less than an hour after that one started if it took under 14 min 35 s |
| Renewal.MaintainExactly | internal/transport/renew.go:12-18 | Maintain renews after 45 minutes, retries after 5 s, and refreshes and probes |
| Renewal.Watch | internal/transport/renew.go:27-90 | the loop with its four variables follows the step function, makes exactly its calls, and stops where it stops |
| Renewal.Turn | internal/transport/renew.go:38-88 | one pass of the body, variable by variable, has the outcome, the calls and the next loop head the results above are about |
| Renewal.Try | internal/transport/renew.go:62-73 | one attempt's calls, each only after success of those before |
| Forwarder.StepKeeps | internal/proxy/udp.go:89-184 | every step of the reader or a worker, in any interleaving, keeps the invariant the results below follow from |
| Forwarder.RetrySucceeds | internal/proxy/udp.go:171-182 | the final default of the enqueue is never taken: the newest datagram is queued |
| Forwarder.SentInOrder | internal/proxy/udp.go:133-144 | what a flow wrote, is writing and has queued is a subsequence of what it received, in order, ending with the newest while the flow lives |
| Forwarder.NothingLost | internal/proxy/udp.go:133-184 | a flow whose queue was never full and whose writes never failed has lost nothing: written, being written, queued and being handed are everything it received, in order |
| Forwarder.ConservesExactly | internal/proxy/udp.go:133-184 | what becomes of a flow's datagrams in each action: appended at the end, the oldest queued dropped, the one being written lost when its write fails, and otherwise all kept in order |
| Forwarder.DropsOnlyWhenFull | internal/proxy/udp.go:171-182 | a datagram is dropped only after the reader found the queue three long, for the datagram it found that with |
| Forwarder.ArrivesExactly | internal/proxy/udp.go:150-170 | where an arriving datagram goes: to its source's flow, to a new one while fewer than 128 are in the table, and nowhere when too long or the table is full |
| Forwarder.PhasesExactly | internal/proxy/udp.go:94-146 | when a worker opens its flow, leaves, and is gone |
| Forwarder.OneWorkerPerSource | internal/proxy/udp.go:158-169 | the sources in the table are exactly those with a live worker, and each has one |
| Forwarder.RemovesItsOwn | internal/proxy/udp.go:94-100 | a leaving worker always finds its own entry, so the check before deleting never fails |
| Forwarder.SocketsBounded | internal/proxy/udp.go:161-164 | open tunnel sockets never exceed 128 |
| Shell.QuotingRoundTrip | cmd/qcat/mosh.go:54 | the shell's lexer maps the joined quoted words back to the words exactly when none holds a NUL |
| Shell.ShellWordReads | cmd/qcat/mosh.go:54 | a quoted word reads as exactly its text, anywhere between words or inside one |
| Shell.DirectCommand | cmd/qcat/mosh.go:70-72 | with a server path the command lexes to that path and the arguments exactly when no NUL is in them |
| Shell.ArgumentsExactly | cmd/qcat/mosh.go:57-65 | the arguments: fixed options, the port's digits when one is chosen, and the command when there is one |
| Shell.DecimalReads | cmd/qcat/mosh.go:59 | reading the digits back gives the number |
| Shell.DiscoveryCommand | cmd/qcat/mosh.go:73-80 | without one it lexes to sh, -c and the script as one word exactly when no argument holds a NUL, and the script's tokens then hold three commands, each running its mosh-server with exactly the arguments |
| Shell.ScriptText | cmd/qcat/mosh.go:76-79 | the script those tokens are read from is the fixed text with the quoted arguments in its three places |
| Shell.ServerCommand | cmd/qcat/mosh.go:56-81 | for any server, port and command the line built by appending words, quoting and concatenating is the one those results are about |
| Shell.QuoteAll | cmd/qcat/mosh.go:66-68 | rewrites each word in place to its quoted form |

## Left out

- Token counts are reals where the code keeps a float64, so rounding in `allow` is not modelled.
- One clock stands for Go's wall and monotonic readings; saturation of `time.Time.Sub` is not modelled.
- Running time, erasure of temporaries on the stack, and constant-time comparison.
- The cryptographic primitives themselves, including that a proof or signature cannot be forged; failures of signing, randomness and derivation are one flag of a delivery.
- Server.Server.Decode: computes the offer before the later checks, where the code encapsulates after them; the offer of a refused hello is not used.
- Table.Table.EraseAll: the code deletes while it scans; here the entries to remove are collected first.
- Table.Table.Installed: the sync.Once of a session's callback is a field of its entry, since an entry is handed out at most once.
- Agreement.BootstrapAgrees: only the participants' own frames travel, and the server draws no nonce again that it drew before a Close; injected frames are covered by the other server results, which hold for arbitrary packets.
- Sessions.AcceptedOnce: stated between two Close calls; Close empties the replay table, so a packet still timely is accepted again after it.
- Server.EvictOldest: a table with a bucket that starts at Go's zero time may lose another entry.
- Framed.Connection.Accept: an assembly is a value in the table, not an object, because no reference to it escapes; the 64-bit mask of seen fragments is a sequence of 64 booleans.
- Framed.Connection.Write: a failing connection takes some number of whole frames; what a failed or short write leaves on the wire is not modelled.
- Renewal.Watch: what refresh, renew and probe do; their outcomes and the clock readings around them are inputs.
- The forwarder's reply direction, its deadlines and its dialing; a dial or a write either succeeds or fails.
- Shell expansions, escapes and comments: a command that needs them is refused by the lexer, and none of the commands built here does.
- The session validity check and pinned key after a bootstrap, the tunnel, the relay and WireGuard.
- The SOCKS proxy, the Mosh session around the command, configuration, trust files, control socket, CLI and Swift helper: they relay streams behind a fixed request layout, run subprocesses and read and write files, and keep no state across calls that a run theorem would be about.
