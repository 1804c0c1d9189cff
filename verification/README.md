# open-gps: verified model

A Dafny 4.11 model of the part of the tracker where data can be lost: the path
of a GPS fix from the device's flash to the backend's tables, and the stateful
algorithms around it. `dafny verify dfyconfig.toml` checks the whole project.

## The delivery protocol

A device keeps accepted fixes in a ring of 64-byte slots on flash, described by
a metadata record that is written to two files in turn; after a reboot the copy
with the higher generation and a valid CRC wins. The main loop peeks up to 20
fixes, posts them in chunks of three with one retry each, and removes them from
the ring only if every chunk was answered with 201. The backend inserts each
batch in one transaction over two keyed tables and accepts a known key again.

- `Crc16`, `Wire`, `FixRecordCodec`, `FixQueue`: the byte codecs on real
  bit-vectors, with the encoders and decoders as methods over buffers.
- `FixStore`: every store operation as a function of flash, RAM and the outcome
  of each file write. A write that stops after k bytes is also what a power cut
  at that moment leaves, so the images a cut can leave are the results over all
  write outcomes.
- `StoreInvariant`, `StoreOperations`: what flash must look like for a reboot to
  find the queue, and that push, peek, ackFront, begin and reset keep it, or
  exactly when they do not.
- `PersistentFixStore`: the store as an object over three files. Each method is
  proved equal to its function in `FixStore`, and every image it passes through,
  byte by byte, is recorded and proved to be one of the function's torn results.
- `LocationPayload`, `Transport`, `MainLoop`: scaling to fixed point, the posting
  discipline, and the enqueue and drain steps over those objects.
- `Ingest`: the two tables, the transactions and their faults, batch
  classification, and what replays and reorderings do.
- `Delivery`: all of it as one machine whose actions carry every outcome the
  program does not control: torn writes, power cuts, lost, late and repeated
  requests and responses, commits and aborts, traffic of other devices. The main
  theorems are `NoSilentLoss` and `IdsNeverReused`, over every run.
- `DeliveryLink`: the drains of the transport layer are runs of that machine.
- `DeliveryLimits`: what its guards protect, and exactly what is lost without
  them: pushes into a full ring that do not complete, and boots that reset.

## The other machines

- `Hub`, `HubRuns`: the live-event hub as objects, and its interleavings with
  publishers, subscriptions and readers.
- `Connectivity`: recovery policy, cellular manager and the main loop's gate,
  closed into one loop over real time with a 32-bit millisecond clock.
- `Sampling`: motion hysteresis, poll interval, upload decision, teleport guard.
- `LiveRoute`: the reducer of the map page.
- `Reports`: sessions, track metrics, gap quality and display samples.
- `RouteSampling`: the NTILE route query and its reader.

## Where the code differs from its comments

The model follows the code.

- push's roll-back comment promises RAM consistent with flash; `next_seq` is not
  rolled back, so ids are skipped but never reused (`iot/src/persistent_fix_store.cpp:163-174`).
- The next commit is said to go to the slot that did not win; reset always
  writes slot A (`iot/src/persistent_fix_store.cpp:50-54`). `ResetRecoveredIff` says
  when a reboot then finds the reset.
- A corrupt front record is dropped at boot; so is the whole queue, also when
  that record is intact but cannot be read (`iot/src/persistent_fix_store.cpp:110-117`),
  which is `BeginKeepsIff`. Ids then start at 1 again, and a fix whose new id the
  backend knows from before is answered 201 and stored nowhere, which is
  `ResetLosesSilently`; `StoredIffFree` says when it is stored.
- A full ring is said to drop the oldest and count it. A power cut between the
  two writes of that push loses the oldest uncounted, and one inside the data
  write can leave its slot undecodable, on which the next boot drops the whole
  queue (`iot/src/persistent_fix_store.cpp:140-156`): `FullRingGuardNeeded` and
  `FullRingLosesAll`.
- The backend is said to acknowledge by sequence id; the parsed ids are only
  logged, and the status 201 decides (`iot/src/transport.cpp:276-322`).
- The route is said to be bounded by maxPoints; it may hold one more
  (`backend/internal/app/locations/service.go:176-177`), which is `RouteCount`.

## Model

| member | source | states |
|---|---|---|
| `Delivery.NoSilentLoss` | iot/src/main.cpp:308-414 | In every run of boots, pushes, drains, lost, late and repeated requests and responses, commits, acknowledgements and power cuts inside any flash write, a fix whose push returned true is still in the queue a reboot finds, or stored by the backend under its id and instant with a location row, or reported as rejected, or one of exactly lost_count dropped ones; only boots, pushes and acknowledgements count towards the bound on the run |
| `Delivery.Accounted` | iot/src/main.cpp:308-414 | The same from any state that keeps the invariant, and for ids the backend may hold from an earlier life of the device |
| `Delivery.StoredReading` | backend/internal/app/locations/adapter.go:79-95 | The row of a stored fix holds the reading of a fix with that instant as it was sent, its own if no other fix has its instant, unless something else put a row there |
| `Delivery.KeysPersist` | backend/internal/app/locations/adapter.go:79-84 | In every run the backend keeps each ingest key it holds, with its instant |
| `Delivery.RunKeeps` | iot/src/persistent_fix_store.cpp:56-222 | The invariant behind it survives every run: flash sound, RAM in step, ids ordered and below next_seq, every request made of seen records with no id twice, every confirmed or acknowledged fix carried by an answered request and dealt with |
| `Delivery.IdsNeverReused` | iot/src/persistent_fix_store.cpp:128-174 | Two records visible in the ring at any two moments of a run carry the same id only if they are the same record, and ids strictly increase from tail to head |
| `Delivery.SeenGrows` | iot/src/persistent_fix_store.cpp:128-174 | Over any stretch of a run the map from id to the record it named only grows, across reboots and failed commits |
| `DeliveryLimits.FullRingGuardNeeded` | iot/src/persistent_fix_store.cpp:140-156 | Power lost anywhere in a push into a full ring, after the data file was opened: the oldest fix survives if and only if the bytes that arrived leave its slot decoding to it; otherwise it is neither queued nor counted |
| `DeliveryLimits.FullRingLosesAll` | iot/src/persistent_fix_store.cpp:110-156 | Every push into a full ring has a moment at which a power cut costs the whole queue: the next boot resets the store, with nothing counted as lost and ids from 1 |
| `DeliveryLimits.ResetForgetsQueue` | iot/src/persistent_fix_store.cpp:110-117 | Counterexample to both delivery theorems without the guard on boots: after a boot that cannot read its front slot, a waiting fix is neither queued, counted nor stored, and id 1 now names the new record, which differs from the one it named |
| `DeliveryLimits.ResetReusesId` | iot/src/persistent_fix_store.cpp:110-117 | From a new device: after its first fix and a power cut, such a boot and one more fix leave a different record visible under id 1, with the first one neither queued, stored, refused nor counted |
| `DeliveryLimits.NewLife` | iot/src/persistent_fix_store.cpp:50-54 | After such a boot and a first push the invariant holds again, for a life in which the backend already holds the ids it knows |
| `DeliveryLimits.StoredIffFree` | backend/internal/app/locations/adapter.go:79-87 | From the start of any life, whatever earlier requests are under way: a fix that left the queue undropped and unrefused has been given to the backend in a request it served, and it is stored if and only if, just before that, its key was free or held its very instant |
| `DeliveryLimits.StoredIffFreeAtStart` | backend/internal/app/locations/adapter.go:79-87 | Once all requests of earlier lives have arrived, what decides is whether the key was free, or held that instant, when the life began |
| `DeliveryLimits.ResetLosesSilently` | iot/src/main.cpp:397-410 | The run that loses a fix that way: enqueued after the reset under id 1, answered 201, acknowledged off the ring, and neither queued, stored, refused nor counted |
| `DeliveryLink.DisciplinedIsRun` | iot/src/transport.cpp:280-322 | Everything transportPostBatch may do with a peeked batch is a run of the machine, at whose end the batch may be acknowledged if and only if the result is SENT |
| `Delivery.EnqueueView` | iot/src/persistent_fix_store.cpp:125-176 | A push seen through a reboot: appended, with drop-oldest and one more lost when full, or nothing changed; the new id is next_seq |
| `Delivery.AckView` | iot/src/persistent_fix_store.cpp:205-222 | An acknowledgement seen through a reboot: the front is gone or nothing changed |
| `Delivery.BootView` | iot/src/persistent_fix_store.cpp:56-123 | A boot never changes what a later reboot would see, except for creating an empty queue where nothing decoded |
| `Delivery.RequestDisposed` | backend/internal/app/locations/service.go:91-116 | After a committed and reported request each of its items has an ingest key or is among the rejected |
| `PersistentFixStore.PersistentFixStore.Push` | iot/src/persistent_fix_store.cpp:125-176 | The in-place method equals the specified push in result, record, flash and RAM for every outcome of its two writes, and every flash image it passes through is the result of push under some shorter write |
| `PersistentFixStore.PersistentFixStore.AckFront` | iot/src/persistent_fix_store.cpp:205-222 | Equals the specified acknowledgement, including the modular step back after a failed commit; every intermediate image is one of its torn outcomes |
| `PersistentFixStore.PersistentFixStore.Peek` | iot/src/persistent_fix_store.cpp:178-203 | Fills the caller's buffer with what the specified peek returns, and resets the store exactly when that does; every intermediate image is one of its torn outcomes |
| `PersistentFixStore.PersistentFixStore.ReadSlots` | iot/src/persistent_fix_store.cpp:184-202 | The read loop computes the specified scan, stopping at a short slot and failing at one that does not decode |
| `PersistentFixStore.PersistentFixStore.Begin` | iot/src/persistent_fix_store.cpp:56-123 | Equals the specified boot: meta choice, capacity change, next slot, data file, front probe; every intermediate image is one of its torn outcomes |
| `PersistentFixStore.PersistentFixStore.ChooseMeta` | iot/src/persistent_fix_store.cpp:66-93 | The first half of it: the stored meta and the slot that lost, or a fresh one that is committed first |
| `PersistentFixStore.PersistentFixStore.ProbeFront` | iot/src/persistent_fix_store.cpp:110-117 | The second half: a front record that cannot be read drops the queue |
| `PersistentFixStore.PersistentFixStore.CommitMeta` | iot/src/persistent_fix_store.cpp:24-48 | Equals the specified commit; a failed one leaves the generation as it was |
| `PersistentFixStore.PersistentFixStore.Reset` | iot/src/persistent_fix_store.cpp:50-54 | Equals the specified reset; every intermediate image is one of its torn outcomes |
| `PersistentFixStore.LittleFs.WriteMetaFile` | iot/src/persistent_fix_store.cpp:32-42 | A meta file is truncated and then filled byte by byte; every moment in between is a shorter write of the same image |
| `PersistentFixStore.LittleFs.WriteDataSlot` | iot/src/persistent_fix_store.cpp:140-149 | A data slot is overwritten byte by byte in place; every moment in between is a shorter write |
| `StoreOperations.PushAtomic` | iot/src/persistent_fix_store.cpp:125-176 | Whatever the writes do (ring not full, or both complete, or data not opened), flash holds the queue from before or from after, the latter exactly when push returns true; the new record is appended under next_seq, the oldest dropped and counted when full; a failed push leaves RAM as it was but for next_seq |
| `StoreOperations.PushAtomicIffRoom` | iot/src/persistent_fix_store.cpp:140-156 | For a record not yet queued, no outcome of the writes shows a reboot a third state if and only if the ring has room |
| `StoreOperations.FullRingOverwrite` | iot/src/persistent_fix_store.cpp:140-156 | A push into a full ring that stops anywhere after opening the data file leaves a reboot with what the front slot then decodes to in the place of the oldest, uncounted, and with no readable queue if it does not decode |
| `StoreOperations.FullRingFatal` | iot/src/persistent_fix_store.cpp:140-149 | Such a push of a new record has a byte at which the front slot does not decode: the first that differs from what was there |
| `StoreOperations.PeekResets` | iot/src/persistent_fix_store.cpp:191-197 | A running store that meets an undecodable front slot resets, whatever it held |
| `StoreOperations.PushAfterReset` | iot/src/persistent_fix_store.cpp:128-174 | The first push after a reset takes id 1 and starts a one-element queue that every later reboot finds |
| `StoreOperations.PushDurableIff` | iot/lib/fix_queue/fix_queue.cpp:106-144 | A push that returned true is published, for a reboot, if and only if its id is not 2^32 - 1, because encode accepts next_seq 0 and decode does not; otherwise a reboot finds the old queue, with the record in place of the oldest if the ring was full; a given id is kept and 0 becomes next_seq |
| `StoreOperations.RollbackRestores` | iot/src/persistent_fix_store.cpp:163-174 | The roll-back undoes everything the publication changed except next_seq, through the wrap of both indices |
| `StoreOperations.AckAtomic` | iot/src/persistent_fix_store.cpp:205-222 | Cut anywhere, ackFront leaves the queue without its first min(n, count) records or the whole queue, with RAM in step |
| `StoreOperations.PeekPrefix` | iot/src/persistent_fix_store.cpp:178-203 | peek returns the first min(max, count, readable) records of the queue and changes nothing |
| `StoreOperations.PeekMeans` | iot/src/persistent_fix_store.cpp:178-203 | On any flash a peek reads whole, decodable slots from the tail on, up to its limit, the readable bytes or a short slot, and changes nothing, unless a whole slot it comes to does not decode: then it returns nothing and resets the store |
| `StoreOperations.OverlayBytes` | iot/src/persistent_fix_store.cpp:140-156 | A data write that stops leaves the new bytes in front and what was there behind |
| `StoreOperations.BeginRecovers` | iot/src/persistent_fix_store.cpp:66-93 | A reboot on sound flash finds the stored queue, leaves flash alone and names the losing meta slot for the next commit |
| `StoreOperations.BeginKeepsIff` | iot/src/persistent_fix_store.cpp:110-117 | A non-empty queue survives begin if and only if its front slot can be read and decodes; otherwise the store is reset with nothing counted as lost, and the reboot after that finds what slot B holds if that is newer than the reset |
| `StoreOperations.BeginFresh` | iot/src/persistent_fix_store.cpp:73-77 | Where no meta decodes, begin starts an empty queue with ids from 1, or leaves none |
| `StoreOperations.BeginRefuses` | iot/src/persistent_fix_store.cpp:56-109 | Without a capacity or a mounted file system begin changes nothing and the store stays unusable; a queue of another capacity is dropped for a fresh one |
| `StoreOperations.ResetRecoveredIff` | iot/src/persistent_fix_store.cpp:50-54 | After a completed reset the next reboot recovers it if and only if slot B is unreadable or holds generation at most 1 |
| `StoreInvariant.CommitInstalls` | iot/src/persistent_fix_store.cpp:24-48 | After a complete commit the slot just written is the one a reboot picks and the next slot is the other one |
| `StoreInvariant.CommitInstalledIff` | iot/lib/fix_queue/fix_queue.cpp:150-160 | A complete commit is what the next reboot picks if and only if the generation does not wrap |
| `StoreInvariant.SpareIsLoser` | iot/src/persistent_fix_store.cpp:83-92 | The copy a reboot picks is never the one it overwrites next, also for equal generations |
| `StoreInvariant.CommitTorn` | iot/src/persistent_fix_store.cpp:24-48 | A meta write cut at any byte, or not begun, leaves RAM and everything a reboot can see unchanged |
| `StoreInvariant.StepBackByAt` | iot/src/persistent_fix_store.cpp:216-217 | Stepping back k slots undoes k advances, across the wrap |
| `StoreInvariant.AdvanceByAt` | iot/lib/fix_queue/fix_queue.cpp:170-173 | Advancing n slots is modular addition: head stays (tail + count) mod capacity |
| `FixRecordCodec.RecordRoundTrip` | iot/lib/fix_queue/fix_queue.cpp:54-97 | decode(encode(r)) is r for every record whose last timestamp byte is NUL, and nothing otherwise |
| `FixRecordCodec.RecordLayout` | iot/lib/fix_queue/fix_queue.cpp:54-75 | Every field of a record lies at its offset of the 64-byte image, little-endian, signed ones in two's complement, with version 1 in front, zeros behind and the CRC last, low byte first |
| `FixRecordCodec.RecordCorruptionDetected` | iot/lib/fix_queue/fix_queue.cpp:77-82 | Any change of an encoded record within two adjacent bytes of the 64 makes decode fail |
| `FixRecordCodec.NearbyUndecodable` | iot/lib/fix_queue/fix_queue.cpp:77-82 | Two different slots that differ only within two adjacent bytes do not both decode |
| `FixRecordCodec.FixRecordEncode` | iot/lib/fix_queue/fix_queue.cpp:54-75 | The buffer method refuses a null or short buffer or an unterminated timestamp, and otherwise writes exactly the image |
| `FixRecordCodec.FixRecordDecode` | iot/lib/fix_queue/fix_queue.cpp:77-97 | The buffer method returns what the image decodes to, or refuses |
| `FixQueue.MetaRoundTrip` | iot/lib/fix_queue/fix_queue.cpp:106-148 | Every structurally valid meta survives encode and decode if and only if next_seq is not 0, up to the crc field |
| `FixQueue.MetaLayout` | iot/lib/fix_queue/fix_queue.cpp:106-122 | Every field of a meta lies at its offset of the 32-byte image, little-endian, with the CRC of the first 28 bytes and two zeros behind |
| `FixQueue.DecodableIff` | iot/lib/fix_queue/fix_queue.cpp:124-148 | Bytes decode if and only if there are 32, the CRC fits, head and tail lie below a capacity that the count does not exceed, and next_seq is not 0 |
| `FixQueue.MetaCorruptionDetected` | iot/lib/fix_queue/fix_queue.cpp:124-128 | Any change within two adjacent bytes of the first 30 of a meta image makes decode fail |
| `FixQueue.MetaPaddingUnchecked` | iot/lib/fix_queue/fix_queue.cpp:112-128 | Bytes 30 and 31 never matter |
| `FixQueue.TornMetaUnreadable` | iot/src/persistent_fix_store.cpp:14-22 | No proper prefix of a meta image decodes |
| `FixQueue.FixQueueMetaEncode` | iot/lib/fix_queue/fix_queue.cpp:106-122 | The buffer method writes exactly the image of a structurally valid meta, and refuses any other |
| `FixQueue.FixQueueMetaDecode` | iot/lib/fix_queue/fix_queue.cpp:124-148 | The buffer method returns what the bytes decode to, or refuses |
| `Crc16.Calculate` | iot/lib/fix_queue/fix_queue.cpp:19-28 | The bit loop computes CRC-16/MODBUS (MODBUS over Serial Line Specification and Implementation Guide V1.02, section 6.2.2) as a fold over the bytes |
| `Crc16.CheckValue` | iot/lib/fix_queue/fix_queue.cpp:19-28 | The CRC of the nine ASCII digits 123456789 is 0x4B37, the check value of CRC-16/MODBUS |
| `Crc16.BitStepInjective` | iot/lib/fix_queue/fix_queue.cpp:23-25 | The bit step with 0xA001 is injective on 16-bit states |
| `Crc16.StepsLinear` | iot/lib/fix_queue/fix_queue.cpp:23-25 | Any number of bit steps commutes with exclusive or |
| `Crc16.EqualCrcNearby` | iot/lib/fix_queue/fix_queue.cpp:19-28 | Two inputs that differ only within two adjacent bytes and have the same CRC are equal |
| `Crc16.FramedNearby` | iot/lib/fix_queue/fix_queue.cpp:77-81 | The same with the stored CRC included, also when the change straddles data and CRC |
| `MainLoop.Enqueue` | iot/src/main.cpp:319-341 | An enqueued fix is scaled, numbered with next_seq and appended; on any failure the queue is unchanged |
| `MainLoop.Drain` | iot/src/main.cpp:356-404 | An upload takes place if and only if the gate is open, the GNSS is off and a record can be read; its posts keep the chunk discipline over the first records of the queue, at most 20; they are removed, all of them and no others, if and only if it ended SENT and the commit landed, and then every one of them was in a body that went out whole and was answered with status 201 |
| `MainLoop.Upload` | iot/src/transport.cpp:240-323 | The posts keep the chunk discipline over the batch, an unusable URL posts nothing, and SENT is returned if and only if the confirmed bodies, joined, are the whole batch |
| `MainLoop.NextBatch` | iot/src/main.cpp:368-369 | The batch is the front of the queue, the least of 20, the count and the readable records long, and taking it changes nothing |
| `MainLoop.PushHeld` | iot/src/main.cpp:332-334 | Pushing an unnumbered record appends it under next_seq, dropping the oldest of a full queue, or changes nothing |
| `Transport.TransportPostBatch` | iot/src/transport.cpp:240-323 | The posts follow the discipline: chunk by chunk, one more try exactly after a transport error and a re-attached network, the next chunk only after a 201; nothing is posted for an empty, oversized or unaddressable batch |
| `Transport.PostWithRetry` | iot/src/transport.cpp:292-311 | One attempt, or two if the first met a transport error and the network came back |
| `Transport.SentMeansAllConfirmed` | iot/src/transport.cpp:281-322 | Confirmed chunks are always a run from the front; all are confirmed if and only if the result is SENT; no chunk is posted more than twice |
| `Transport.FlattenChunks` | iot/src/transport.cpp:282-284 | The chunks, joined, are the batch; each holds one to three records |
| `Transport.PostChunks` | iot/src/transport.cpp:280-322 | The chunk loop keeps to the posting discipline for every link and every body that does not fit |
| `Transport.Link.PostOnce` | iot/src/transport.cpp:108-188 | SENT if and only if the request went out whole and status 201 was read; a server error for 500 and above, a client error for any other status, a transport error if none could be read, a configuration error for an unusable host |
| `Transport.ConfirmedDelivered` | iot/src/transport.cpp:181-184 | A record is in a confirmed body if and only if some attempt with it went out whole and met status 201 |
| `Ingest.Adapter.InsertBatch` | backend/internal/app/locations/adapter.go:71-102 | One transaction: on success both tables are those of inserting the items in turn and every id is accepted; on failure they are unchanged, unless the commit took effect and its answer was lost |
| `Ingest.Adapter.Insert` | backend/internal/app/locations/adapter.go:37-68 | A single insert adds a row unless its place is taken, all or nothing |
| `Ingest.ReplayEqualsOnce` | backend/internal/app/locations/adapter.go:71-102 | Any sequence of committed batches, however regrouped, overlapping or repeated, ends in the tables of the same items deduplicated by first occurrence of (device, sequence id) |
| `Ingest.DeduplicatedPositions` | backend/internal/app/locations/adapter.go:79-87 | The deduplicated items are those at exactly the first positions of each key, in order |
| `Ingest.GroupingIrrelevant` | backend/internal/app/locations/adapter.go:71-102 | Splitting the same items into batches differently changes nothing |
| `Ingest.FirstItemWins` | backend/internal/app/locations/adapter.go:79-94 | For a new key the tables record the first item that carries it, and its row is its own reading if the place was free, and otherwise the reading of whoever took the place |
| `Ingest.OwnRowIff` | backend/internal/app/locations/adapter.go:88-92 | The row holds the item's own reading if and only if no row and no earlier item with a new key has its place, unless they read the very same |
| `Ingest.StoredIffKeyFree` | backend/internal/app/locations/adapter.go:79-94 | A valid item is stored if and only if its key is free; its id is accepted either way |
| `Ingest.OrderIrrelevant` | backend/internal/app/locations/adapter.go:71-102 | Two histories with the same consistent items, in any order and repetition, end in the same tables |
| `Ingest.GroundedKept` | backend/internal/app/locations/adapter.go:79-95 | Every ingest key always has a location row at its (device, recorded_at) |
| `Ingest.InsertAllKeys` | migrate/migrations/000021_create_location_ingest_keys.up.sql:3-12 | A key is present if and only if it was there before or some item carries it |
| `Ingest.InsertAllKeeps` | backend/internal/app/locations/adapter.go:79-92 | What either table holds never changes |
| `Ingest.IngestBatch` | backend/internal/app/locations/service.go:91-116 | The loop computes exactly the accepted and rejected lists, and the tables are those of inserting the accepted items; without a fault the batch is taken if and only if every accepted id fits the key column |
| `Ingest.BatchConserved` | backend/internal/app/locations/service.go:91-116 | The multiset of accepted and rejected ids is the multiset of the input ids |
| `Ingest.AcceptedPositions` | backend/internal/app/locations/service.go:99-110 | Accepted is, in input order, exactly the first occurrences that pass validation |
| `Ingest.AcceptedDistinct` | backend/internal/app/locations/service.go:98-110 | Accepted holds no id twice and only valid items |
| `Ingest.RejectedPositions` | backend/internal/app/locations/service.go:99-110 | Rejected lists, in input order, exactly the items that fail a check, each with its id and the code of the first check it fails |
| `Ingest.VerdictIsFirstFailure` | backend/internal/app/locations/service.go:99-151 | The checks in order are duplicate, sequence id, latitude, longitude, altitude, speed, accuracy, battery voltage and signal strength; the verdict is the code of the first that fails, and none if all pass |
| `Ingest.RowsStayPlausible` | backend/internal/app/locations/service.go:125-151 | No batch puts a row out of the physical ranges into the table |
| `Ingest.ValidIsPlausible` | backend/internal/app/locations/service.go:128-151 | The validation passes exactly the readings that all lie in their ranges |
| `Hub.Hub.Publish` | backend/internal/infra/live/hub.go:32-43 | Draws the number, then serves the whole audience under the lock: each subscriber has the event appended or, with a full channel, is removed and closed |
| `Hub.Hub.Broadcast` | backend/internal/infra/live/hub.go:34-43 | The loop over the inner map reaches the same state in whatever order it runs, and never sends to or closes a closed channel |
| `Hub.Hub.Subscribe` | backend/internal/infra/live/hub.go:45-54 | A fresh, open, empty channel registered under its device and number; nobody else changes |
| `Hub.Hub.Unsubscribe` | backend/internal/infra/live/hub.go:54-60 | The closure removes and closes its subscription once |
| `Hub.Hub.RemoveLocked` | backend/internal/infra/live/hub.go:64-72 | Removal compares the pointer, closes the channel and drops an empty inner map |
| `Hub.Subscription.Receive` | backend/internal/infra/live/hub.go:46-54 | The reader gets the oldest buffered event, and the end of the stream once the channel is closed and empty |
| `Hub.DeliveredOneMore` | backend/internal/infra/live/hub.go:36-42 | Serving one more subscriber, any one, takes the outcome for a set to the outcome for that set and it |
| `Hub.UnsubscribedOk` | backend/internal/infra/live/hub.go:54-60 | Calling the closure again changes nothing; afterwards the channel is closed and unregistered |
| `HubRuns.NoSilentGap` | backend/internal/infra/live/hub.go:32-72 | Under every interleaving a registered subscriber has received or still holds exactly the events published for its device since it subscribed, in lock order; a closed one was closed once, saw a prefix, and missed an event unless it unsubscribed; no inner map is empty |
| `HubRuns.ClosedIff` | backend/internal/infra/live/hub.go:36-61 | In every run a channel is closed if and only if its subscriber unsubscribed or was served with sixteen events unread |
| `HubRuns.NeverPanics` | backend/internal/infra/live/hub.go:36-41 | No run sends to a closed channel or closes one twice |
| `HubRuns.PublisherProceeds` | backend/internal/infra/live/hub.go:34-43 | A publisher inside the lock can always serve whom it has still to serve, and then leave |
| `HubRuns.RunKeeps` | backend/internal/infra/live/hub.go:29-72 | The invariant behind both, kept by every action |
| `HubRuns.IdsUnique` | backend/internal/infra/live/hub.go:29-52 | No number is given to two events or subscriptions in any run |
| `HubRuns.NumbersOutOfOrder` | backend/internal/infra/live/hub.go:33-34 | Counterexample: a subscriber can receive event 3 before event 2, as numbers are drawn before the lock |
| `HubRuns.OrderKeptIff` | backend/internal/infra/live/hub.go:32-43 | In every run the events of a device are published in number order if and only if none of them was waiting with a lower number when another one of the device got the lock |
| `HubRuns.SeenInOrder` | backend/internal/infra/live/hub.go:32-43 | And then every subscriber of the device sees rising numbers |
| `Connectivity.FailingRunShape` | iot/src/cellular_manager.cpp:11-56 | In every run in which no recovery and no upload succeeded the recoveries so far are the first of CONNECT, CONNECT, RESTART, RESTART, ..., each at least its delay after its failure, at most limit of them; FAILED is reached exactly when all are spent |
| `Connectivity.FailsInTime` | iot/lib/connectivity_policy/connectivity_policy.cpp:4-17 | Such a run whose passes are at most g long and g apart is FAILED after limit times the maximal delay and three gaps, with exactly limit recoveries performed |
| `Connectivity.RunStarts` | iot/src/cellular_manager.cpp:11-13 | Such a run starts from READY and from a failed boot |
| `Connectivity.RunTells` | iot/src/cellular_manager.cpp:11-56 | In every run, lucky or not, the policy is determined by what happened: its counter is the number of failures since the last success, up to 255; READY without any, FAILED beyond the limit, and otherwise backing off from the last failure by the delay for that many |
| `Connectivity.StartTells` | iot/src/cellular_manager.cpp:11-13 | So it is after both boots |
| `Connectivity.DueTick` | iot/src/cellular_manager.cpp:22-56 | A due tick reconnects before the third failure and restarts from it on; it succeeds if and only if the modem did every step of that, and is one more failure otherwise |
| `Connectivity.AfterSuccess` | iot/lib/connectivity_policy/connectivity_policy.cpp:4-17 | What follows a success in any run, whatever failed before it, is up to the next success again a failing run from READY with the same first recoveries and delays |
| `Connectivity.GivesUpAfterSuccess` | iot/lib/connectivity_policy/connectivity_policy.cpp:4-17 | And it is FAILED by the same bound, with exactly limit recoveries since that success |
| `Connectivity.EventDecision` | iot/lib/connectivity_policy/connectivity_policy.cpp:4-12 | A failure that backs off asks to look again at its deadline, a registration asks to connect and changes nothing, and everything else asks for nothing |
| `Connectivity.RecoveryFires` | iot/lib/connectivity_policy/connectivity_policy.cpp:13-17 | A tick within half a turn of the clock after the delay performs the recovery that is due |
| `Connectivity.FailedAbsorbs` | iot/src/main.cpp:286-287 | FAILED is absorbing for policy, manager and main loop together |
| `Connectivity.DelayDoubles` | iot/lib/connectivity_policy/connectivity_policy.cpp:9-10 | The k-th delay is base * 2^(k-1) cut at max, constant from the seventh, if the shift does not overflow |
| `Connectivity.DueNotEarly` | iot/lib/connectivity_policy/connectivity_policy.cpp:2-2 | The signed comparison is never true early, for delays up to half a turn |
| `Connectivity.DueOnTime` | iot/lib/connectivity_policy/connectivity_policy.cpp:2-2 | The signed comparison is true for half a turn after the deadline, across the wrap |
| `Connectivity.ConnectivityPolicy.Event` | iot/lib/connectivity_policy/connectivity_policy.cpp:4-12 | The method equals the event function: a success clears the failures and is READY, a failure is one more, FAILED beyond the limit |
| `Connectivity.ConnectivityPolicy.Tick` | iot/lib/connectivity_policy/connectivity_policy.cpp:13-17 | The method equals the tick function on the policy value |
| `Connectivity.CellularManager.Tick` | iot/src/cellular_manager.cpp:22-56 | The manager performs the decided recovery and feeds its outcome back as an event |
| `Connectivity.CellularManager.ReportTransportResult` | iot/src/cellular_manager.cpp:15-20 | Only SENT, transport errors, timeouts and server errors reach the policy |
| `Sampling.MotionChangesConfirmed` | iot/lib/sampling_policy/sampling_policy.cpp:115-128 | In every run an event makes x the new motion state if and only if it is an accepted fix and the last stateConfirmationCount speeds accepted since the state last changed, this one included, all passed the enter or exit threshold for x |
| `Sampling.RunMotionOk` | iot/lib/sampling_policy/sampling_policy.cpp:122-128 | In every run the candidate count is the full length of the unbroken run of speeds that speak for the candidate, short of confirmation, and there is a candidate exactly when the last speed spoke against the state |
| `Sampling.DecisionTells` | iot/lib/sampling_policy/sampling_policy.cpp:61-154 | The decision tells the state, the interval and the acceptance that the fix left behind |
| `Sampling.AcceptedIff` | iot/lib/sampling_policy/sampling_policy.cpp:61-113 | In every run and in real time a fix is accepted if and only if its coordinates are usable, its timestamp has not been the same for longer than the maximum age, no known quality is too poor, and the speed since the last accepted fix is possible |
| `Sampling.SameTextIff` | iot/lib/sampling_policy/sampling_policy.cpp:74-79 | Two fixes carry the same timestamp if and only if their bytes agree up to a NUL or to the twentieth |
| `Sampling.PollAsObserved` | iot/lib/sampling_policy/sampling_policy.cpp:130-137 | After an accepted fix the poll interval is that for its speed while it speaks for moving, the maximum while it speaks for standing, and the cadence of the unknown otherwise |
| `Sampling.FixDueInTime` | iot/lib/sampling_policy/sampling_policy.cpp:14-17 | After a poll the next is due if and only if the interval has passed in real time or the 32-bit clock has wrapped since; the first is due at once |
| `Sampling.RunIntervalWithin` | iot/lib/sampling_policy/sampling_policy.cpp:33-41 | In every run the poll interval stays within [min, max] when min <= unknown <= max |
| `Sampling.TeleportGuard` | iot/lib/sampling_policy/sampling_policy.cpp:96-113 | In every run consecutive accepted fixes with elapsed time are at most maxSpeed times that time apart, whatever was rejected between |
| `Sampling.TeleportGuardAllPairs` | iot/lib/sampling_policy/sampling_policy.cpp:96-113 | With the triangle inequality the bound holds between any two accepted fixes |
| `Sampling.DueAfterReenable` | iot/lib/sampling_policy/sampling_policy.cpp:161-163 | After GNSS comes back the next fix is due at once, whatever the clock reads |
| `Sampling.UploadAskedWhenDue` | iot/lib/sampling_policy/sampling_policy.cpp:130-152 | In every run and across the clock's wrap an accepted fix asks for an upload always before the first success, while stationary exactly once the heartbeat has passed, while moving exactly once the interval or the spacing has; and it names that reason, the spacing first |
| `Sampling.IntervalCoversSpacing` | iot/lib/sampling_policy/sampling_policy.cpp:33-41 | At the measured speed one poll interval covers the target spacing to within half a millisecond of travel, no less at the lower and no more at the upper bound |
| `Sampling.RadioDueInTime` | iot/lib/sampling_policy/sampling_policy.cpp:165-174 | The radio opens for a waiting fix exactly when the batch is full, when it was never open, or when the flush interval has passed since the last opening, across the wrap |
| `Sampling.SamplingPolicy.OnFix` | iot/lib/sampling_policy/sampling_policy.cpp:61-154 | The method equals the specified transition and decision |
| `Sampling.SamplingPolicy.Gate` | iot/lib/sampling_policy/sampling_policy.cpp:66-108 | The four gates accept exactly the acceptable fixes and touch only the timestamp record |
| `Sampling.SamplingPolicy.UpdateMotion` | iot/lib/sampling_policy/sampling_policy.cpp:115-128 | The hysteresis branches equal the specified observation and confirmation |
| `Sampling.SamplingPolicy.NotifyGpsReenabled` | iot/lib/sampling_policy/sampling_policy.cpp:161-163 | The poll clock is set back by one interval, wrapping |
| `LocationPayload.LocationPayloadToFixRecord` | iot/lib/location_payload/location_payload.cpp:142-187 | The method refuses an unterminated time or a position off the globe, and otherwise fills the record as specified |
| `LocationPayload.StoredIsRounded` | iot/lib/location_payload/location_payload.cpp:121-140 | A stored payload reads back as itself rounded to the record's units |
| `LocationPayload.PayloadIdempotent` | iot/lib/location_payload/location_payload.cpp:121-187 | Payload to record to payload, twice, is the same as once |
| `LocationPayload.RoundingError` | iot/lib/location_payload/location_payload.cpp:155-170 | Latitude, longitude, altitude, speed and accuracy are each off by at most half a unit |
| `LocationPayload.StoredUnits` | iot/lib/location_payload/location_payload.cpp:151-186 | The record holds millionths of a degree, centimetres and thousandths of a metre per second and of a volt, each to the nearest, and one bit for each optional field that is known |
| `LiveRoute.RouteIsGreatest` | frontend/src/lib/live-location.ts:58-85 | Over any order and repetition of one device's snapshots and for any maxPoints, the route's timestamps are the greatest distinct ones seen, sorted: maxPoints of them if positive, all for 0, none if negative |
| `LiveRoute.GreatestUnique` | frontend/src/lib/live-location.ts:76-84 | There is only one such list of timestamps |
| `LiveRoute.SnapshotIsLatest` | frontend/src/lib/live-location.ts:65-72 | The snapshot's location is the one at the greatest timestamp seen, or none if none came |
| `LiveRoute.SnapshotIs` | frontend/src/lib/live-location.ts:65-84 | The snapshot has the server time and presence of the last one that came, and of equally late locations the one that came last |
| `LiveRoute.RouteKeepsFirst` | frontend/src/lib/live-location.ts:74-80 | For each timestamp of the route the point that came first is kept, even if the timestamp was cut off and came again |
| `LiveRoute.Converges` | frontend/src/lib/live-location.ts:58-85 | Two runs over the same timestamps end with the same route, provided a timestamp always carries the same point |
| `LiveRoute.ForeignIgnored` | frontend/src/lib/live-location.ts:63-64 | Snapshots of other devices than the first might as well not arrive |
| `LiveRoute.SortSorts` | frontend/src/lib/live-location.ts:79-79 | The sort orders by time and permutes |
| `Reports.Sessions` | backend/internal/app/reports/service.go:241-255 | The loop returns the partition of the points into sessions |
| `Reports.SessionsUnique` | backend/internal/app/reports/service.go:241-255 | There is only one partition into consecutive parts whose inner gaps are within, and whose bordering gaps are over, the threshold |
| `Reports.SessionPerGap` | backend/internal/app/reports/service.go:141-150 | A non-empty track has one session more than Quality counts gaps |
| `Reports.SessionsAddUp` | backend/internal/app/reports/service.go:256-280 | The metrics of the whole track are those of its sessions plus those of the segments across the gaps, for distance, jumps, intervals and longest gap alike |
| `Reports.IntervalsTelescope` | backend/internal/app/reports/service.go:140-150 | On sorted points the summed intervals are last minus first |
| `Reports.TrackMetrics` | backend/internal/app/reports/service.go:256-280 | The loop adds up each segment once: distance without jumps and off-globe points, jumps, longest gap, ends |
| `Reports.TrackMeans` | backend/internal/app/reports/service.go:256-280 | What is added up: the distances of the segments on the globe that are no jumps, the number of jumps among them, the longest positive gap, the number of positive intervals and of gaps over five minutes |
| `Reports.JumpIff` | backend/internal/app/reports/service.go:273-276 | A segment is a jump if and only if it leads to a later point and takes more than 200 km/h |
| `Reports.GapTotals` | backend/internal/app/reports/service.go:140-150 | The gap loop adds up the positive intervals, their number and the gaps over the threshold |
| `Reports.GapQuality` | backend/internal/app/reports/service.go:140-154 | The average times the number of intervals is their sum |
| `Reports.SamplePoints` | backend/internal/app/reports/service.go:292-302 | For len > max >= 2 exactly max points from the first to the last, the i-th at the greatest index not after i of max - 1 equal parts; panics exactly for a negative max or max 1 with more points |
| `Reports.NeighboursEvenlyApart` | backend/internal/app/reports/service.go:298-298 | Neighbouring samples lie the floor or, if the division leaves a rest, the ceiling of (len - 1) / (max - 1) apart |
| `Reports.SamplesRise` | backend/internal/app/reports/service.go:297-300 | The index formula strictly increases from 0 to len - 1 |
| `RouteSampling.RouteAnswers` | backend/internal/infra/postgres/locations.sql.go:182-215 | The returned rows are the one chronological listing of the first row of each bucket and the last row; they start with the window's first row and end with its last |
| `RouteSampling.BucketSize` | backend/internal/infra/postgres/locations.sql.go:186-186 | NTILE deals total rows into n buckets of total / n, the first total mod n of them with one more |
| `RouteSampling.BucketBounds` | backend/internal/infra/postgres/locations.sql.go:186-186 | Bucket b is exactly the rows from the sum of the sizes before it to the start of the next |
| `RouteSampling.RouteRowAt` | backend/internal/infra/postgres/locations.sql.go:182-215 | The j-th returned row is row j * (total / n) + min(j, total mod n) of the window, and the one after n such rows is the last of the window |
| `RouteSampling.NoLongGap` | backend/internal/infra/postgres/locations.sql.go:182-215 | Of any total / n + 1 neighbouring rows of the window one is in the route |
| `RouteSampling.RouteCount` | backend/internal/infra/postgres/locations.sql.go:182-215 | Exactly total rows if total <= n, n if below 2n, and n + 1 otherwise |
| `RouteSampling.SmallWindowWhole` | backend/internal/infra/postgres/locations.sql.go:182-215 | A window of at most n rows comes back whole |
| `RouteSampling.RouteSpansRange` | backend/internal/infra/postgres/locations.sql.go:182-215 | Of the table's rows in the range, the route holds only such rows, the earliest first and the latest last |
| `RouteSampling.BucketSteps` | backend/internal/infra/postgres/locations.sql.go:186-186 | NTILE numbers buckets in row order without a hole |
| `RouteSampling.LastShares` | backend/internal/infra/postgres/locations.sql.go:186-200 | The last row shares its bucket if and only if there are at least two rows a bucket |
| `RouteSampling.GetRoute` | backend/internal/app/locations/adapter.go:177-216 | The reader projects every row in order and reports sampled as total > maxPoints |
| `RouteSampling.SampledMeansDropped` | backend/internal/app/locations/adapter.go:215-215 | sampled tells whether rows were dropped, if and only if the request is not two rows for one bucket |

## Left out

- Delivery.NoSilentLoss: guarded by what the code needs. No reset (the front slot can be read at boot, the capacity does not change), a push into a full ring completes both writes or does not open the data file, at most 2^26 slots so that slot offsets fit 32 bits, fewer than 2^32 - 16 boots, pushes and acknowledgements in the run so that no counter wraps, and callers pass sequence id 0 as the main loop does. `FullRingGuardNeeded`, `FullRingLosesAll` and `PushAtomicIffRoom` say what happens without the guard on a full ring, `BeginKeepsIff`, `ResetForgetsQueue`, `ResetReusesId`, `NewLife`, `StoredIffFree` and `ResetLosesSilently` without the one on resets, `PushDurableIff` and `CommitInstalledIff` without the one on counters.
- Delivery.IdsNeverReused: under the same guards; an id drawn by a failed push can be drawn again after a reboot, but then no reboot ever sees the first record.
- Delivery.StoredReading: the battery voltage and signal strength of a row are those of the record only where the record has them; the transport fills unknown ones with live readings.
- DeliveryLimits.StoredIffFreeAtStart: asks that no request of an earlier life is still under way; `StoredIffFree` does not.
- PersistentFixStore.PersistentFixStore.Push: the fallback that reopens the data file with "w" after "r+" fails, and so truncates it, is not modelled; a file is either opened in place or not opened.
- PersistentFixStore.PersistentFixStore.Begin: formatting the flash after a failed mount is not modelled; a failed mount returns false.
- MainLoop.Drain: the radio timestamps it keeps and the modem, GNSS and LED calls around it appear only as parameters.
- Transport.TransportPostBatch: JSON text, URL, TLS and HTTP parsing are parameters (does the body fit, does the URL fit, what each exchange met); the parsed acknowledgement ids are ignored, as in the code.
- Ingest.Adapter.InsertBatch: the last_contact_at update is only one more statement that can fail; requests that the HTTP layer refuses with 400 count as never served.
- HubRuns.NoSilentGap: the 64-bit counter is unbounded, and a blocked reader is an action that is not enabled.
- Connectivity.FailingRunShape: for max delays up to 2^31 ms and limits below 255; for 255 the failure counter saturates and FAILED is never reached, which is `FailedReachableIff`.
- Sampling.TeleportGuardAllPairs: assumes the triangle inequality of the distance, and between consecutive accepted fixes at least one and fewer than 2^32 ms; within one millisecond any jump is accepted, which is `SameMillisecondUnchecked`.
- LocationPayload.RoundingError: over reals, for values whose scaled form fits 32 bits; NaN, infinities and floating-point rounding are not modelled, here and in the other modules.
- LiveRoute.RouteIsGreatest: recorded_at is an instant, which assumes RFC 3339 texts of one format and zone, for which `<` and localeCompare agree; isLocation and isLiveSnapshot are left out.
- Reports.SessionsAddUp: the great-circle distance is an arbitrary function, and time differences do not saturate.
- RouteSampling.RouteAnswers: the conversion of maxPoints to 32 bits and rows changing between the count and the route query are not modelled.
- groupPoints, pointSeries, Health, completeness and Export of the reports: grouping, bucketing and counting that would only add easy members.
- Liveness: a 4xx leaves fixes queued for good and FAILED is absorbing, so "every fix is eventually sent" is not true of this code.
- Modem, TLS, AT commands, watchdog, power, battery, LED and serial code: hardware, present only as nondeterministic outcomes.
- Authentication, users, access grants, API keys, share links, e-mail, HTTP handlers, the remaining SQL and the frontend apart from the reducer: plumbing around the parts above.
