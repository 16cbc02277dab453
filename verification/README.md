# alta_bus: a verified model

This project models alta_bus, a TCP message bus for market data, in Dafny 4.11 and proves what it
promises its publishers and subscribers. `dafny verify dfyconfig.toml` checks everything.

## What is modelled

**The ring** (`bus/src/ring.rs`) appears in two forms.

- `RingProtocol` is the concurrent protocol. Every atomic load, store and compare-exchange is one
  step, and so is every store to and every read of a single message cell, so a torn read can be
  expressed. Any number of consumer threads register, poll, read the cells in any order, advance and
  leave while one publish is in flight. The ring has `2^bits` slots for an arbitrary `bits`; the
  deployed size is `RingTheorems.DeployedSize`. `RingSafety` gives the invariant and shows that every
  step keeps it, `RingTheorems` the consequences for whole runs, `RingIds` who holds which entry,
  `RingRefinement` the refinement of an append-only log, `RingProgress` exact backpressure and freedom
  from deadlock, and `RingGap` exactly when a registration is safe.
- `Ring` is the object: arrays that its methods update in place, one call at a time. A publish call
  leaves exactly the memory that an undisturbed run of the protocol leaves (`RingProgress.PublishRun`).

**The bus** (`bus/src/main.rs`) also appears in two forms.

- `BusProtocol` is the whole system as one state machine around the step-level ring: connections that
  deliver arbitrary byte streams which may end anywhere, publisher threads that share one mutex and
  drop it between retries, the dispatch thread and its fan-out under the registry lock, subscriber
  threads with bounded queues whose writes may fail after any number of bytes. `BusInvariant` and
  `BusSafety` give the invariant, `BusTheorems` and `BusSpans` what follows for publishers and
  subscribers, `BusClock` where timestamps come from, `BusProgress` why neither the dispatch thread nor
  a waiting publisher can be stuck, and `BusLiveness` that what is sent gets through.
- `BusThreads` holds the thread bodies as the loops they are, over a reader, the `Ring` object, the
  registry and the queues. Where the code yields, the dispatch thread takes a turn, and each loop is
  proved to end and to compute what the parser and the fan-out specification say.

**The wire** (`protocol/src/header.rs` and the two client crates) is in `LittleEndian`, `Header`,
`Framing`, `Streams`, `PublisherClient`, `SubscriberClient` and `Handshake`.

The main results, hardest first:

1. `BusTheorems.SdkToSdk` and `BusTheorems.EndToEnd`: for every schedule, whatever part of its
   connection a subscriber reads, the frames it parses are messages of the ring in ring order, on
   channels it asked for, each with the channel, type and payload of a `publish_raw` call.
2. `RingTheorems.NoTornRead`, `AwaitedMessagesAreSafe`, `ReceivedIsLogSegment` and
   `RingRefinement.RunRefines`: no interleaving lets a consumer see a half-written or overwritten
   message, and what it has been given is the log from its start to its cursor.
3. `RingGap.SafeIffGoesRight`: that no consumer falls behind or reads a foreign cell does not hold of
   the ring on its own; in every reachable state it survives a registration, whatever follows, if and
   only if the registration is safe where it happens (`SafeToRegister`).
4. `BusTheorems.RingOrderIsMerge`, `Conservation`, `BusSpans.SameFilterSameSequence`: the ring's order
   merges the publishers' own orders, each subscriber's matching messages are all accounted for, and
   two subscribers get the same of every stretch in which both are registered and nothing is dropped.
5. `BusLiveness.PublishedGetsThrough` and `PublisherFinishes`: from every reachable state a publisher can
   publish its whole stream, and everything published can reach a subscriber that keeps up, whatever the
   other connections do. `BusProgress.WaitingPublisherCompletes` and `RingProgress.PublishCanSucceed`: no
   deadlock.

Two premises are explicit. Fewer than `2^64 - 2` messages are published, so sequence numbers neither
overflow nor meet the free sentinel. A registration's compare-exchange, where it would succeed, finds
the head at most a lap past the value the call loaded, and strictly less than a lap if a publish in
flight could overwrite that slot unseen; `RingProtocol.MayJoin` spells this out for each point of the
publish call. A gap below one lap always meets it (`RingGap.GapBelowLapIsSafe`). Without it the ring
is unsafe for every ring size, as `RingGap.LappedRegistrationTears` shows by a schedule. The bus needs
no such premise, because its only consumer registers before the listener exists
(`bus/src/main.rs:46-48`), and no theorem about the bus has it.

The ring accepts a freed consumer id: the sentinel is then taken for a cursor, and while the ring has
not yet gone round once, the call delivers a message that was never published and makes the entry live
again. `Ring.Ring.TryConsume` states when (`bus/src/ring.rs:209-228`). The bus never unregisters.

Where code and comments disagree the model follows the code. `from_bytes` is documented to want
exactly 17 bytes, but accepts any longer slice and ignores the rest (`protocol/src/header.rs:36-41`).
`bus/RING_BUFFER_ARCHITECTURE.md` speaks of 256 consumers and of a relaxed load of the head; the code
has 64 entries (`bus/src/ring.rs:9`) and an acquire load (`bus/src/ring.rs:175`).

## Model

| member | source | states |
|---|---|---|
| BusTheorems.SdkToSdk | publisher-client/src/lib.rs:68-90 | For every run, a subscriber that asked for `ids` parses, from any prefix of its connection, only frames of `publish_raw` calls on one of these channels (any channel for the empty list), in ring order, each with its call's channel, type and payload. |
| BusTheorems.EndToEnd | bus/src/main.rs:88-127 | The parsed frames are distinct ring messages in increasing order from the subscriber's registered span, on accepted channels, each with the timestamp the ring message has and otherwise equal to a frame the bus accepted from a publisher's byte stream; they are everything taken from its queue when a waiting subscriber's whole output is read. |
| BusClock.TimestampIsClock | bus/src/ring.rs:188-188 | The timestamp of every ring message is what the bus's clock said in the very publish call that published it, made by the publisher it comes from. |
| BusTheorems.ParsedIsTaken | subscriber-client/src/lib.rs:91-105 | Parsing any prefix of the bytes written to a subscriber, even after a failed write, gives a prefix of the frames taken from its queue; parsing all of them gives all of these frames, but for the one being written or not fully written. |
| BusTheorems.RingOrderIsMerge | bus/src/main.rs:253-278 | Every ring message is exactly one accepted frame of exactly one publisher; each publisher's published frames are a gapless prefix of the frames accepted from its stream, in order, and all of them once its loop has ended. |
| BusTheorems.PublisherOrderKept | bus/src/main.rs:228-250 | Two messages of one publisher stand in the ring in the order of its stream, and conversely. |
| BusTheorems.Conservation | bus/src/main.rs:108-120 | Matching messages fanned out while registered = taken + still queued + dropped; the taken and queued ones are increasing in ring order and all match; a queue never exceeds its depth; while registered, the span reaches to the last fan-out made to it. |
| BusTheorems.DropsOnlyWhenFull | bus/src/main.rs:110-119 | One fan-out to one subscriber: skipped if the filter rejects, dropped exactly when its queue is at full depth, else appended as this message's frame; no other connection changes. |
| BusTheorems.SameRelativeOrder | bus/src/main.rs:109-119 | Two messages received by two subscribers were received in the same relative order. |
| BusTheorems.DeployedBounds | bus/src/main.rs:16-16 | In the deployed bus a queue holds at most 8192 frames and the dispatch thread is at most 65536 messages behind. |
| BusSpans.SpanIsRegistration | bus/src/main.rs:188-199 | A subscriber's span starts at the message that was next when the run inserted it into the registry, follows the fan-outs while it is registered, and ends at the message that was next when the run removed it. |
| BusSpans.SubscriberGetsAll | bus/src/main.rs:108-120 | Of any stretch of its span in which nothing was dropped for it, a subscriber gets all matching messages, in order, with nothing in between. |
| BusSpans.SameFilterSameSequence | bus/src/main.rs:108-120 | Same filter and any stretch in which both were registered and nothing was dropped for either, however differently they joined, left or dropped elsewhere: the identical sequence, namely all matching messages of the stretch. |
| BusTheorems.RegistryIsSound | bus/src/main.rs:178-199 | No two subscribers share an id, every registry entry's receiver is alive, and a waiting subscriber's sender is in the registry. |
| BusTheorems.RemovedIsLeftAlone | bus/src/main.rs:292-303 | After removal a subscriber's queue and output never change again, by any step of any thread. |
| BusSafety.RunKeepsInv | bus/src/main.rs:33-303 | The whole system's invariant holds after every run, with no timing premise. |
| BusSafety.StepKeepsInv | bus/src/main.rs:88-303 | Every step of every thread keeps the invariant. |
| BusSafety.StoreStampKeepsInv | bus/src/main.rs:260-266 | The stamp store appends the lock holder's one unpublished frame to the log, attributes it to that publisher, and keeps the invariant. |
| BusSafety.DecideKeepsInv | bus/src/main.rs:261-267 | A refused publish drops the lock with its frame still to be published; an accepted scan keeps the lock and changes no connection; the invariant is kept. |
| BusSafety.FanOneKeepsInv | bus/src/main.rs:109-119 | Offering a message records its fate and, if kept, queues the bytes of that message; no other connection changes and the invariant is kept. |
| BusSafety.InsertKeepsInv | bus/src/main.rs:188-196 | Insertion under the registry lock adds exactly this entry under an id that was not there, starts the span at the next fan-out, and keeps the invariant. |
| BusSafety.RemoveKeepsInv | bus/src/main.rs:302-302 | Removal takes out exactly this subscriber's own entry, leaves its span ending at the next fan-out, and keeps the invariant. |
| BusSafety.RecvNeverCloses | bus/src/main.rs:293-296 | A registered subscriber's `recv` never fails. |
| BusSafety.SendFailsKeepsSub | bus/src/main.rs:297-300 | A write that fails part way leaves a proper part of that one frame behind the whole earlier frames. |
| BusInvariant.InitOk | bus/src/main.rs:34-55 | The bus starts with the dispatch consumer registered at message 0 on a fresh ring, and the invariant holds. |
| BusProgress.DispatcherCanStep | bus/src/main.rs:88-127 | With a published message outstanding, the dispatch thread has an enabled step whatever the queues hold, and every step but the last brings it strictly closer to finishing. |
| BusProgress.OthersKeepProgress | bus/src/main.rs:88-127 | No step of any other thread sets the dispatch thread back. |
| BusProgress.DispatcherNeverBlocked | bus/src/main.rs:108-120 | The same for every reachable state. |
| BusProgress.DispatchCompletes | bus/src/main.rs:90-121 | By its own steps alone the dispatch thread finishes its message without disturbing any publisher, having offered it once to exactly the registered subscribers that had not been offered it yet. |
| BusProgress.ServedFate | bus/src/main.rs:108-120 | Each of these subscribers was skipped by its filter, or had its queue full and lost the message, or has it as the last item of its queue. |
| BusProgress.HolderFinishes | bus/src/main.rs:260-277 | Wherever the publish call of the lock's holder stands, it ends by its own steps: published exactly once, or refused with everything as before, and never refused once nobody is a lap behind and the scan has passed so far. |
| BusProgress.WaitingPublisherCompletes | bus/src/main.rs:253-278 | From every reachable state a publisher waiting at the lock, held or free, publishes exactly its frame, after the holder's own steps and, if the ring is full, the dispatch thread's own steps for one message. |
| BusLiveness.SubscriberDrains | bus/src/main.rs:292-301 | From every reachable state a waiting subscriber empties its queue by its own steps alone, takes exactly what was in it, and a reader of its whole connection then has the frames of everything ever taken. |
| BusLiveness.PublishedGetsThrough | bus/src/main.rs:88-127 | From every reachable state the dispatch thread and a waiting subscriber alone can go on until a reader of its connection has every message published so far that its filter accepts and that had not been offered to it, after what it had been queued before, in ring order. |
| BusLiveness.SubscriberJoins | bus/src/main.rs:156-199 | A fresh connection that subscribes can be registered with its filter by its own steps and those of the dispatch thread. |
| BusLiveness.SubscriberLeaves | bus/src/main.rs:297-303 | A subscriber whose write failed can remove its entry and end, likewise. |
| BusLiveness.PublisherStarts | bus/src/main.rs:200-213 | A fresh connection that publishes can go on to the lock with its first frame. |
| BusLiveness.PublisherFinishes | bus/src/main.rs:228-277 | From every reachable state, once the lock's holder has ended its call by its own steps, a publisher can publish everything the bus accepts from its stream by its own steps and those of the dispatch thread. |
| RingTheorems.NoTornRead | bus/src/ring.rs:211-228 | In every state of every run, everything a consumer has read of its slot are cells of the one message it consumes, and the producer writes to another slot. |
| RingTheorems.AwaitedMessagesAreSafe | bus/src/ring.rs:175-194 | Every message a live consumer still has to read is in its slot, complete and stamped, and not being overwritten. |
| RingTheorems.ReceivedIsLogSegment | bus/src/ring.rs:233-269 | What a consumer has been given is the log from its start to its cursor: no gap, duplicate, reordering or changed cell. |
| RingTheorems.NeverBehind | bus/src/ring.rs:209-221 | No consumer ever gets `FellBehind`; the stamp it polls is its own, the one a lap earlier, or zero, and its own exactly when the message is published. |
| RingTheorems.ScanIsSound | bus/src/ring.rs:151-179 | From a passed test until the commit, every cursor live at that moment is less than a lap behind, although the scan is not atomic. |
| RingTheorems.LagIsBounded | bus/src/ring.rs:151-194 | Live cursors are at most a lap behind the stamped count, never the sentinel, and ahead of the head only between the two commit stores and then by one. |
| RingTheorems.TestNeverWraps | bus/src/ring.rs:177-177 | The wrapping subtraction of the refusal test never wraps, live cursors or not, and the test refuses exactly when the scanned minimum is a lap or more behind. |
| RingTheorems.WindowInvariant | bus/src/ring.rs:181-194 | Each of the last lap's messages is in slot `n mod 2^bits` with stamp `n + 1`, in a slot of its own, except the one being overwritten. |
| RingIds.IdsAreExclusive | bus/src/ring.rs:128-148 | In every legal schedule, lapped registrations included, an id is held by at most one consumer, at most 64 are held at once, and the cursor of a held id is never the sentinel. |
| RingIds.StepKeepsOwned | bus/src/ring.rs:128-269 | What this rests on is kept by every step: no stamp and no holder's cursor exceeds the stamped count. |
| RingTheorems.FullMeansEachSeenTaken | bus/src/ring.rs:132-141 | `Full` is returned only if each entry was taken at some moment of that very call. |
| RingTheorems.StartIsLoadedHead | bus/src/ring.rs:128-137 | In every legal schedule a consumer starts at the head that its own last registration call loaded, as it was at that load. |
| RingTheorems.DeployedSize | bus/src/ring.rs:5-6 | The deployed ring has 65536 slots and its mask is reduction modulo 65536. |
| RingSafety.StepKeepsInv | bus/src/ring.rs:128-269 | Every atomic step of any thread keeps the ring's invariant, given the registration premise. |
| RingSafety.RunKeepsInv | bus/src/ring.rs:109-269 | The invariant holds after every run from a new ring. |
| RingSafety.ScanCursorKeepsInv | bus/src/ring.rs:153-158 | One load of the scan: entries scanned so far are at least the running minimum or less than a lap behind. |
| RingSafety.DecideKeepsInv | bus/src/ring.rs:176-179 | A passed test means every live cursor is less than a lap behind. |
| RingSafety.WriteCellKeepsInv | bus/src/ring.rs:183-191 | One cell store extends the new message's image and touches no message still to be read. |
| RingSafety.StoreStampKeepsInv | bus/src/ring.rs:193-193 | The stamp store publishes the complete message and keeps the window. |
| RingSafety.RegisterKeepsInv | bus/src/ring.rs:128-142 | A registration step, safe where it happens, adds a consumer that nobody else shares an entry with. |
| RingSafety.ReadCellKeepsInv | bus/src/ring.rs:223-226 | One cell read by a consumer is that cell of its message. |
| RingSafety.StampCases | bus/src/ring.rs:215-221 | What a consumer within one lap finds in its slot's stamp, published or not. |
| RingSafety.StoreCursorEffect | bus/src/ring.rs:228-229 | The cursor store hands over exactly the image of the message at the cursor and advances by one. |
| RingRefinement.StoreStampAppends | bus/src/ring.rs:193-193 | The stamp store is the log's append, allowed because every reader is less than a lap behind. |
| RingRefinement.RegisterCasJoins | bus/src/ring.rs:133-138 | A successful compare-exchange is a reader joining at the loaded head; a failed one is silent. |
| RingRefinement.StoreCursorTakes | bus/src/ring.rs:267-267 | The cursor store is a reader taking exactly the entry at its position. |
| RingRefinement.UnregisterLeaves | bus/src/ring.rs:144-148 | The sentinel store is a reader leaving. |
| RingRefinement.OthersAreSilent | bus/src/ring.rs:151-226 | All other steps leave the log and its readers alone. |
| RingRefinement.RunRefines | bus/src/ring.rs:128-269 | Every run of the ring is, step by step, a run of the log from the empty log, where the stamp store appends the message written and a cursor store takes the entry at its position. |
| RingProgress.BackpressureIsExact | bus/src/ring.rs:175-179 | With cursors still during the scan, a publish is refused exactly when some live consumer has a whole lap unread. |
| RingProgress.PublishRun | bus/src/ring.rs:164-197 | An undisturbed publish leaves exactly the stated memory: unchanged if refused, else the message appended, stored and stamped in its slot. |
| RingProgress.ConsumeCompletes | bus/src/ring.rs:233-269 | Wherever its call stands, a consumer with a published message completes it by its own steps and receives exactly it. |
| RingProgress.RegistrationCompletes | bus/src/ring.rs:128-142 | Undisturbed, a registration gets the first free entry with its cursor at the current head, and fails only when every entry is taken. |
| RingProgress.LaggardIsReady | bus/src/ring.rs:243-248 | When a publish would be refused, each consumer responsible finds its stamp ready, and consuming one message takes exactly it off the list. |
| RingProgress.PublishCanSucceed | bus/src/ring.rs:176-197 | No deadlock: from every reachable state with no publish in flight, finitely many consumer steps make any valid publish succeed. |
| RingGap.SafeIffGoesRight | bus/src/ring.rs:128-142 | In every reachable state, a registration is safe if and only if no continuation without further registrations lets any consumer fall behind, read a cell of another message, or receive anything but its log segment. |
| RingGap.UnsafeFallsBehind | bus/src/ring.rs:130-137 | An unsafe registration has a continuation by the other threads alone after which its consumer finds itself lapped. |
| RingGap.SafeIsExact | bus/src/ring.rs:130-137 | Wherever the publish call stands, a registration keeps the invariant if and only if it is safe. |
| RingGap.GapBelowLapIsSafe | bus/src/ring.rs:130-137 | A registration during which the head moves less than one lap is always safe. |
| RingGap.LappedRegistrationTears | bus/src/ring.rs:128-142 | For every ring size, a schedule whose registration is lapped ends in a consumer holding one cell of a new and one of an old message. |
| Ring.Ring.constructor | bus/src/ring.rs:109-125 | A new ring is valid, empty, and every entry is free. |
| Ring.Ring.RegisterConsumer | bus/src/ring.rs:128-142 | Takes the lowest free entry at the current head and changes no other; fails exactly when all are taken. |
| Ring.Ring.UnregisterConsumer | bus/src/ring.rs:144-148 | Frees exactly that entry; an id out of range changes nothing. |
| Ring.Ring.MinConsumerCursor | bus/src/ring.rs:151-160 | A lower bound of all cursors that is one of them, or the largest word. |
| Ring.Ring.Publish | bus/src/ring.rs:164-197 | Refuses exactly on an oversized payload or a consumer a lap behind, changing nothing; otherwise appends exactly this message, with the memory of an undisturbed protocol run. |
| Ring.Ring.StoreCells | bus/src/ring.rs:183-191 | The slot's row becomes the message's cells followed by its own old bytes; all other rows are untouched. |
| Ring.Ring.StampTells | bus/src/ring.rs:215-221 | For any cursor, lapped or not, how its slot's stamp compares with the expected one tells unpublished, ready and lapped apart. |
| Ring.Ring.CallTells | bus/src/ring.rs:209-221 | The same for whatever an entry holds: on a freed entry the expected stamp wraps to zero, and the call finds it exactly until the sentinel's slot, the last one, is first written. |
| Ring.Ring.TryConsume | bus/src/ring.rs:205-230 | Delivers exactly the log entry at the cursor and advances by one, or reports nothing new exactly at the end, or fell behind exactly when lapped, changing nothing. On a freed entry: fell behind, or, exactly while the last slot is unwritten, a message of zeros is delivered and the entry becomes live at cursor 0. |
| Ring.Ring.ConsumeOne | bus/src/ring.rs:233-269 | The same outcomes after polling in a loop. |
| Ring.Ring.ProducerHead | bus/src/ring.rs:272-274 | The head is the number of messages ever published. |
| Slots.ImageUnique | bus/src/ring.rs:183-191 | A slot determines the message stored in it, whatever stale bytes follow its payload. |
| Words.MaskIsModulo | bus/src/ring.rs:6-6 | Bitwise AND with `2^bits - 1` is reduction modulo `2^bits`. |
| Words.IndexOfMax | bus/src/ring.rs:212-213 | The sentinel maps to the last slot. |
| Words.WindowDistinct | bus/src/ring.rs:181-181 | Any `2^bits` consecutive sequence numbers use distinct slots. |
| BusThreads.FanOutOffers | bus/src/main.rs:109-119 | The fan-out specification, queue by queue: exactly the queues whose subscriber is registered for this or all channels and which have room get one more item, a frame that parses to the message's channel, type, timestamp and payload; every other queue is as it was. |
| BusThreads.FannedOutExact | bus/src/main.rs:101-120 | Over any stretch of messages, each registered queue gets, at its end, the frames of the matching messages in order, as many as there was room for, and nothing else. |
| BusThreads.Server.DispatchOnce | bus/src/main.rs:88-127 | One turn advances the cursor by one message and offers exactly that message to everybody; with nothing published it changes nothing. |
| BusThreads.Server.OfferToAll | bus/src/main.rs:101-120 | Builds the frame and offers it, queue by queue as `FanOutOffers` states. |
| BusThreads.Server.TrySendAll | bus/src/main.rs:109-119 | The loop, in any iteration order, appends the frame to exactly the queues of matching registry entries with room. |
| BusThreads.Server.TryPublish | bus/src/main.rs:260-266 | One attempt under the lock appends exactly this frame's message, or is refused, for its size or exactly because the dispatch thread is a whole lap behind, changing nothing. |
| BusThreads.Server.PublishOne | bus/src/main.rs:253-278 | The retry loop ends, appends exactly this frame's message, and the dispatch thread has taken one turn exactly if the ring was full, with the queues to show for it. |
| BusThreads.Server.RunPublisher | bus/src/main.rs:219-251 | The read loop publishes exactly the frames the parser accepts from the rest of the stream, in order, and the queues show exactly the messages the dispatch cursor has moved past, each offered once. |
| BusThreads.Server.HandleConnection | bus/src/main.rs:131-215 | A subscriber gets a new id with its filter and an empty queue; a publisher's whole accepted stream is published, with the queues showing exactly the messages dispatched meanwhile; a bad first frame changes nothing. |
| BusThreads.Server.RunSubscriberIo | bus/src/main.rs:285-303 | Writes the queue's frames in order; only a failed write stops it, and then exactly this id leaves the registry. |
| Handshake.HandleConnection | bus/src/main.rs:142-179 | The first read of a connection classifies it as the byte-level specification does and leaves the reader after the first frame. |
| Handshake.GreetExact | bus/src/main.rs:142-179 | A connection becomes a subscriber exactly if its stream begins with a complete frame of type 0 and at most 1024 payload bytes, a publisher exactly if with such a frame of another type, and else nothing. |
| Handshake.SubscribeExact | bus/src/main.rs:170-179 | A subscriber's filter accepts exactly the channels whose little-endian ids are the whole four-byte groups of its first payload, and all channels exactly if there is no such group. |
| Handshake.FirstFrameIsNotSpecial | bus/src/main.rs:200-213 | First frame plus loop accept exactly what the loop alone would accept from the whole stream. |
| Handshake.SubscriptionSeen | bus/src/main.rs:158-173 | For any list of ids, the bus sees the first `n` modulo `2^30` of them, and drops the connection exactly when these are more than 256. |
| Handshake.SubscriptionRoundTrip | subscriber-client/src/lib.rs:58-77 | For at most 256 ids the filter accepts exactly the listed channels, and all of them exactly for the empty list. |
| Handshake.ControlFrameIs | subscriber-client/src/lib.rs:58-77 | The subscription is one frame of type 0 on channel 0 whose payload holds the ids in order. |
| Framing.TakeFrameExact | subscriber-client/src/lib.rs:91-105 | A frame is taken off a stream exactly when the stream is its bytes followed by the rest. |
| Framing.ParseSplits | subscriber-client/src/lib.rs:91-105 | Parsing splits a stream into whole frames and a rest that holds none. |
| Framing.ParseUnique | protocol/src/header.rs:27-48 | That split is the only one: framing is uniquely decodable. |
| Framing.ParseMonotone | subscriber-client/src/lib.rs:91-105 | A truncated stream parses to a prefix. |
| Framing.AcceptedIsSmallPrefix | bus/src/main.rs:228-250 | The bus's read loop accepts exactly the longest prefix of frames whose payload is within the cap. |
| Framing.AcceptedWhole | bus/src/main.rs:228-250 | From the whole bytes of any frames, exactly those before the first oversized one are accepted. |
| Framing.AcceptedFromSender | bus/src/main.rs:228-250 | From any truncation of a sender's bytes, a prefix of those is accepted. |
| PublisherClient.PublishRaw | publisher-client/src/lib.rs:68-90 | Both write paths put the same frame bytes on the connection, clipped at the same place if it breaks; for payloads below `2^32` bytes a complete write adds bytes that parse to one frame with the channel, type, payload and time of the call. |
| PublisherClient.CallsParseBack | publisher-client/src/lib.rs:68-90 | The bytes of any list of such calls parse to one frame for each call, in order, saying what that call said. |
| PublisherClient.SentParsesBack | publisher-client/src/lib.rs:74-89 | What is sent parses back to itself if and only if the payload is shorter than `2^32`. |
| SubscriberClient.ConnectFiltered | subscriber-client/src/lib.rs:58-85 | Writes the control header and the id bytes in order, clipped if the connection breaks. |
| SubscriberClient.Subscriber.NextRaw | subscriber-client/src/lib.rs:91-105 | Takes exactly the next frame off the stream; fails exactly when no complete frame is left. |
| SubscriberClient.Subscriber.Run | subscriber-client/src/lib.rs:109-119 | Hands over the parsed frames in order up to the handler's first stop, or all of them, and leaves the frames after that on the stream. |
| Header.ToBytes | protocol/src/header.rs:27-34 | Filling the zeroed buffer range by range gives the 17-byte layout. |
| Header.Layout | protocol/src/header.rs:27-34 | Byte 0 is the type; bytes 1 to 4, 5 to 12 and 13 to 16 are, least significant first, the channel, the timestamp and the payload length. |
| Header.DecodeEncode | protocol/src/header.rs:38-48 | Decoding an encoded header gives it back, whatever bytes follow. |
| Header.EncodeDecode | protocol/src/header.rs:36-48 | Decoding succeeds exactly on 17 or more bytes, and encoding the result gives the first 17 back. |
| LittleEndian.FromToLE | protocol/src/header.rs:30-32 | Reading written little-endian bytes gives the number back. |
| LittleEndian.FromLEWeights | protocol/src/header.rs:44-46 | Byte `i` of a little-endian number has weight `256^i`. |
| LittleEndian.ToFromLE | protocol/src/header.rs:44-46 | Writing a number read from bytes gives the bytes back. |

## Left out

- Memory orderings, cache-line padding, `UnsafeCell` and unchecked indexing: the protocol is a
  sequentially consistent interleaving of atomic steps and single-cell accesses.
- Sockets, buffering, thread creation, logging, environment variables, panics and mutex poisoning: a
  connection is a byte sequence that may end anywhere, or a sink that may break anywhere.
- Clock readings: every timestamp is an arbitrary 64-bit input, and the bus's own replaces the
  publisher's.
- The spin and yield tuning of `consume_one`: it only affects timing.
- Payload encodings (`protocol/src/messages`), channel configuration and the benchmarks: the bus
  treats payloads as opaque bytes.
- Ring.Ring.ConsumeOne: polls at most a given number of times, because a method has to end; waiting
  without a bound is the polling step of `RingProtocol`.
- Ring.Ring.TryConsume: the callback is modelled by returning the message it would read.
- RingProtocol lets a thread unregister only its own id and only between consume calls; the code
  leaves that to its callers. A thread that holds several ids counts as several clients.
- BusProtocol takes as one step what only its own thread can see: reading one whole frame, building a
  frame, releasing the mutex together with the last store of a publish.
- BusThreads.Server.RunSubscriberIo: returns when the queue is empty, where the thread blocks until there is
  more; waiting is the enabling condition of `Recv` in `BusProtocol`.
- BusThreads runs its threads in turns, the dispatch thread whenever a publisher yields; all other
  interleavings are in `BusProtocol`. The sender's and the receiver's end of a queue are one map entry
  there, and ids are unbounded numbers.
