# Verified model of the message router

A Dafny model of a header-only message router: shared-memory single-producer /
single-consumer rings, a fan-out router over them, datagram links, a
mixed-transport router, the profile loader, the subscriber-side sequence
tracker, and the RFC 6455 subset of the WebSocket gateway.

| file | what it holds |
|---|---|
| `Bytes.dfy` | machine words, memcpy on byte strings, little-endian words |
| `BoundedFifo.dfy` | the atomic view of one ring direction, and replayable event traces |
| `SpscProtocol.dfy` | the ring as two interleaved processes; refinement of the bounded FIFO |
| `SpscWrap.dfy` | the push that wraps the head counter: the bound is exact and the ring is lost |
| `ShmRegion.dfy` | the mapping: layout, and push/pop as updates of its bytes |
| `Frame.dfy`, `Routing.dfy` | the 64-byte frame; the first-match route table and its rewrites |
| `ShmRouter.dfy` | the SHM router link: specification functions and the code's loops |
| `RouterRuns.dfy` | runs of publishers, router and subscribers; end-to-end delivery |
| `RouterConservation.dfy` | conservation laws over runs; `forward()` is a run |
| `Starvation.dfy` | which channels a record longer than a frame shuts off for good |
| `PriorityFloor.dfy` | two-run comparison of changing priority floors with no floor |
| `FloorOrder.dfy` | which floor dominates which, over all histories of one ring |
| `SharedRegions.dfy` | runs with rings that belong to region names; attribution and delivery iff names differ |
| `SharedDelivery.dfy` | delivery alone on shared regions, decided by names and rules together |
| `SeqTracker.dfy`, `RouterTracker.dfy` | the tracker across wraps; the tracker behind the router |
| `Topology.dfy`, `Loader.dfy` | peers and tables; the loader equals one declarative predicate |
| `DatagramLink.dfy`, `MixedRouter.dfy` | datagram links; the mixed router and its index |
| `MixedRuns.dfy` | step-by-step runs of the mixed router: conservation and delivery across transports |
| `NetDelivery.dfy` | what those runs hand to the kernel, datagram address by datagram address |
| `NetMetrics.dfy` | what the datagram links count in those runs |
| `Deployment.dfy` | from an accepted profile to the hypotheses of the router theorems |
| `WebSocket.dfy` | RFC 6455 sections 5.2, 5.3 and 5.5: codec, both receive loops, both classes |

Main results, each over every input or every run:

* **Ring.** `SpscProtocol.RunRefinesFifo`: every interleaving of loads, stores and
  single-byte copies refines the bounded FIFO; the slot being written is never
  the slot being read; pushed = popped ++ queued. `SpscWrap.PushBoundIsExact`
  and `SpscWrap.WrapLosesTheRing`: its bound of 2^64 - 1 pushes is exact, and
  the push after it ends the ring for good.
* **Router.** `RouterRuns.EndToEnd`, `RouterConservation.Conservation` and
  `PriorityFloor.FloorDominates` range over all runs in which publishers and
  subscribers act between any two ring operations of the router;
  `FloorOrder.FloorOrderIff` orders all pairs of floors, and `Starvation.ServedIff`
  says which channels can still be served.
* **Tracker.** `SeqTracker.TrackExactIff`, `SeqTracker.AccountingForAnyStream`, and
  behind the router `RouterTracker.TrackedDeliveries`.
* **Formats.** The 64-byte frame (`Frame.FieldsAreBytes`, `Frame.SetWrites`), the
  mapping (`ShmRegion.LayoutBytes`, `ShmRegion.WordsAreBytes`) and the WebSocket
  frame (`WebSocket.ParseIsSpelled`, `WebSocket.XorIsBitwise`) are pinned down byte
  by byte.
* **Loader and mixed router.** `Loader.LoadedTopology.BuildFrom` accepts exactly
  `ValidProfile`, that is (`Loader.AcceptedIffDescribed`) exactly the profiles some
  tables describe; `Deployment.AcceptedProfileDelivers` and
  `Deployment.AcceptedProfileDeliversIff` say for which accepted profiles
  attribution and delivery are as promised; `MixedRuns.MixedConservation`,
  `MixedRuns.MixedDelivery` (SHM subscribers) and `NetDelivery.NetDeliveryIff`
  (datagram subscribers) range over all runs of a mixed router, and
  `NetMetrics.NetCounters` says what its datagram links count.
* **WebSocket.** `WebSocket.ChunkIndependence`, `WebSocket.Conversation`,
  `WebSocket.ClientConversation`, `WebSocket.BroadcastInChunks`,
  `WebSocket.ServerReadsReplies`.

Where the code and its own words disagree, or a plausible property fails, the
model follows the code and states the exact condition:

* The loader never compares region names, and `bind_shm_endpoint` opens regions by
  name. `Deployment.AcceptedProfileDelivers`: in every run each frame the router
  takes is stamped with its publisher and delivery is in order and once, if and
  only if no two shm peers name the same region;
  `Deployment.AcceptedProfileDeliversIff`: delivery alone is, if and only if no
  route leads from or to a region that two shm peers name;
  `Deployment.AcceptedProfileMayDuplicate` is an accepted profile with a run in
  which one publication is popped twice.
* The loader asks only that an shm name start with a slash, and shm_open ignores
  leading slashes. Names are compared without them;
  `Deployment.SpellingIsNotEnough` is an accepted profile with two spellings of
  one region in which the promise fails.
* The loader does not compare datagram addresses either. `NetDelivery.NetDeliveryIff`:
  what is sent to a peer's address is that peer's stream, in order and once, in
  every run, if and only if no other datagram peer at that address can be sent
  anything; `NetDelivery.OnePathBreaks` is an accepted profile that fails it.
* A record longer than a frame makes the receive scan throw without being consumed,
  and the run loop carries on. `Starvation.StuckForEver` and
  `Starvation.ServedIff`: the channel it heads, and every channel the scans needed
  to reach would run into such a record first, is never served again, and exactly
  those are not. The record need not be at a front already
  (`Starvation.FrontsAreNotEnough`).
* The comment at `ipc/src/router/source_seq_tracker.hpp:25-29` says a restart at 0
  after 10^9 reports about 3 billion missed frames. The code reports OutOfOrder;
  `SeqTracker.RestartAtZero` says exactly when missed frames are counted, and
  `SeqTracker.ObserveExactIff` exactly which numbers the tracker reads correctly.
* The ring compares its counters directly in the empty test. When the head wraps
  to 0 the tail cannot follow: `SpscWrap.WrapLosesTheRing`. For slot counts
  that do not divide 2^64 the slot index jumps there as well
  (`SpscWrap.SlotsContinueIff`).
* Floor g keeps a ring no fuller than floor f over every history if and only if
  f is 0, f equals g, or g is at least 8 (`FloorOrder.FloorOrderIff`); a floor of 8
  or more, which `set_priority_drop_floor` accepts, never lets a congested ring
  recover (`FloorOrder.RecoveryIff`).
* A route's source is narrowed to a byte before it is checked, so the loader
  predicate speaks of the source modulo 256.
* UDP senders are told apart by port alone (`DatagramLink.ResolvedIff`). The mixed
  router's index agrees with the search for an id if and only if the first and the
  last table entry with that id have the same transport
  (`MixedRouter.IndexAgreesIff`); only a compile-time table can repeat ids.
* The 32-bit atomics in the slots are aligned if and only if the payload size is a
  multiple of 4 (`ShmRegion.LengthWordsAlignedIff`); the loader does not ask for it.
* Pong and close encoders have a one-byte length: they read back exactly up to
  125 bytes of payload (`WebSocket.PongRoundTripIff`, `WebSocket.CloseRoundTripIff`).

## Model

| member | source | states |
|---|---|---|
| BoundedFifo.ReplayConserves | ipc/src/ipc/shm_spsc.hpp:172-235 | on every trace the atomic ring can produce, pushed records = popped records ++ queued records, in order, and the queue never exceeds the slot count |
| BoundedFifo.ApplyConserves | ipc/src/ipc/shm_spsc.hpp:172-235 | the same balance for one event, with sizes and validity kept |
| SpscProtocol.SlotsDiffer | ipc/src/ipc/shm_spsc.hpp:186-187 | counters less than one lap apart select different slots |
| SpscProtocol.InvExcludesCollision | ipc/src/ipc/shm_spsc.hpp:186-232 | under the invariant a slot being filled is never the slot being read out |
| SpscProtocol.HeadSlotIsFree | ipc/src/ipc/shm_spsc.hpp:186-191 | writing the head slot leaves every queued slot as it was |
| SpscProtocol.ProducerStep | ipc/src/ipc/shm_spsc.hpp:180-194 | every producer step keeps the invariant and is a step (or no step) of the bounded FIFO |
| SpscProtocol.ConsumerStep | ipc/src/ipc/shm_spsc.hpp:217-235 | every consumer step keeps the invariant and is a step (or no step) of the bounded FIFO; what it hands over is the whole oldest record |
| SpscProtocol.FullIsDecidedAtTheTailLoad | ipc/src/ipc/shm_spsc.hpp:180-184 | a push answers Full iff the ring was full when the tail was loaded, however far the consumer has moved since |
| SpscProtocol.EmptyIsDecidedAtTheHeadLoad | ipc/src/ipc/shm_spsc.hpp:217-221 | a pop answers empty iff the ring was empty when the head was loaded, whatever was pushed since |
| SpscProtocol.RunFromRefines | ipc/src/ipc/shm_spsc.hpp:172-235 | from any state of the invariant, every interleaving replays on the bounded FIFO |
| SpscProtocol.RunRefinesFifo | ipc/src/ipc/shm_spsc.hpp:172-235 | from an empty ring, every interleaving with fewer than 2^64 pushes refines the bounded FIFO, never collides, keeps 0 <= head - tail <= slot_count, and pushed = popped ++ queued |
| SpscWrap.LostForEver | ipc/src/ipc/shm_spsc.hpp:180-235 | once the head has wrapped and the tail has not, every continuation stays so; at most a record already being read is still taken, and at most the free slots are still filled |
| SpscWrap.WrapLosesTheRing | ipc/src/ipc/shm_spsc.hpp:192-221 | from any state of the invariant, the publish step that takes the head from 2^64 - 1 to 0 leads into that condition for ever |
| SpscWrap.CountersReach | ipc/src/ipc/shm_spsc.hpp:172-235 | pushing and popping in turn brings both counters to any value |
| SpscWrap.PushBoundIsExact | ipc/src/ipc/shm_spsc.hpp:219-221 | every ring has a run with exactly 2^64 pushes whose events are not a run of the bounded FIFO |
| SpscWrap.SlotsContinueIff | ipc/src/ipc/shm_spsc.hpp:186-187 | the slot after counter 2^64 - 1 is slot 0 iff the slot count divides 2^64; with three slots the wrapped push lands on the record before it |
| ShmRegion.TimesIsProduct | ipc/src/ipc/shm_spsc.hpp:98-101 | slot offsets are index times stride |
| ShmRegion.IndexIsRemainder | ipc/src/ipc/shm_spsc.hpp:186-187 | slot indices are counter modulo slot count |
| ShmRegion.LayoutDisjoint | ipc/src/ipc/shm_spsc.hpp:94-119 | four counters and all request and reply slots lie inside the mapping and pairwise share no byte, for every slot count and payload size |
| ShmRegion.LengthWordsAlignedIff | ipc/src/ipc/shm_spsc.hpp:186-188 | all length words are 4-aligned iff the payload size is a multiple of 4, for every slot count |
| ShmRegion.RegionSizeBounded | ipc/src/router/topology_loader.hpp:98-101 | within the loader's limits a mapping is 64 + 2 * slots * (4 + payload) bytes and below 2^50 |
| ShmRegion.LayoutBytes | ipc/src/ipc/shm_spsc.hpp:110-119 | the counters are the words at bytes 0, 8, 16 and 24, request slots start at byte 64, reply slots n * (4 + m) behind them, and counter c uses slot c modulo n, for every n and m |
| ShmRegion.WordsAreBytes | ipc/src/ipc/shm_spsc.hpp:180-191 | a counter is the little-endian number in its eight bytes; a slot's record is as many payload bytes as the number in its first four says, at most m |
| ShmRegion.FilledReadsBack | ipc/src/ipc/shm_spsc.hpp:186-191 | a record stored in a slot is read back from the bytes |
| ShmRegion.FillExtendsQueue | ipc/src/ipc/shm_spsc.hpp:186-192 | filling the head slot in memory appends exactly that record to the queue the bytes spell |
| ShmRegion.QueueFrame | ipc/src/ipc/shm_spsc.hpp:110-119 | bytes outside one direction's slots do not matter to its queue |
| ShmRegion.FirstSlotIgnoresSizes | ipc/src/ipc/shm_spsc.hpp:110-119 | a record in slot 0 reads back through any other assumed sizes, cut to theirs |
| ShmRegion.LaneFrame | ipc/src/ipc/shm_spsc.hpp:110-119 | a direction's queue, counters included, depends on its own bytes only |
| ShmRegion.PushSpec | ipc/src/ipc/shm_spsc.hpp:186-192 | record into the head slot, then the new head word: together they append the record and touch nothing else |
| ShmRegion.PopSpec | ipc/src/ipc/shm_spsc.hpp:223-233 | the new tail word removes the oldest record and touches nothing else |
| ShmRegion.Ring.CopyIn | ipc/src/ipc/shm_spsc.hpp:190-190 | the payload copy overwrites exactly its window of the mapping |
| ShmRegion.Ring.CopyOut | ipc/src/ipc/shm_spsc.hpp:231-231 | the receive buffer starts with the copied bytes and is otherwise unchanged |
| ShmRegion.Ring.StoreRecord | ipc/src/ipc/shm_spsc.hpp:189-191 | payload and length word end up in the slot and nothing else changes |
| ShmRegion.Ring.FindRecord | ipc/src/ipc/shm_spsc.hpp:223-227 | the clamped window found for a pop holds exactly the oldest record |
| ShmRegion.Ring.LoadWord | ipc/src/ipc/shm_spsc.hpp:180-181 | a counter load reads the eight bytes at its place in the header |
| ShmRegion.Ring.StoreWord | ipc/src/ipc/shm_spsc.hpp:192-192 | a counter store changes those eight bytes and no other |
| ShmRegion.Ring.FillSlot | ipc/src/ipc/shm_spsc.hpp:186-191 | before the head moves, the head slot holds the new record behind an unchanged queue; only slot bytes of this direction change |
| ShmRegion.Ring.Append | ipc/src/ipc/shm_spsc.hpp:186-192 | both stores of a push: the queue in the bytes grows by the record |
| ShmRegion.Ring.TryPush | ipc/src/ipc/shm_spsc.hpp:172-194 | succeeds iff not full, appends the payload, cut to its first bytes if the slot is smaller, changes no byte outside this direction |
| ShmRegion.Ring.TryPop | ipc/src/ipc/shm_spsc.hpp:209-235 | empty, too small (nothing consumed) or the oldest record delivered and removed |
| ShmRegion.Region.constructor | ipc/src/ipc/shm_spsc.hpp:103-119 | a fresh mapping of exactly the computed size holds two empty rings |
| ShmRegion.Region.TrySend | ipc/src/ipc/shm_spsc.hpp:265-278 | the server role pushes the reply ring, a client the request ring, each at its place in the mapping, and the other ring's contents stay the same although both share the bytes |
| ShmRegion.Region.TryRecv | ipc/src/ipc/shm_spsc.hpp:280-292 | each role pops the ring the other role pushes |
| Frame.GetAfterSet | ipc/src/router/frame.hpp:81-140 | a getter returns what was set, modulo the field's width (2^48 for the sideband length) |
| Frame.GetAfterOtherSet | ipc/src/router/frame.hpp:81-140 | no setter disturbs another field |
| Frame.PayloadRoundTrip | ipc/src/router/frame.hpp:151-172 | a payload reads back without its trailing NULs, hence unchanged iff it had none |
| Frame.PayloadAndFieldsAreSeparate | ipc/src/router/frame.hpp:81-172 | header fields and payload do not overlap |
| Frame.GettersReturnLastWrite | ipc/src/router/frame.hpp:75-172 | after any sequence of setter calls every getter and the payload return their own last write |
| Frame.StampSpec | ipc/src/router/shm_router_link.hpp:123-126 | stamping changes byte 0 and bytes 8..15 only, so topic, sequence number and priority survive |
| Frame.FreshReadsBack | ipc/src/router/frame.hpp:75-79 | a fresh frame reads back its source, the no-sideband marker, zeros and an empty payload |
| Frame.FieldsAreBytes | ipc/src/router/frame.hpp:40-51 | each of the eight getters is the little-endian number in its own literal bytes of the frame |
| Frame.SetWrites | ipc/src/router/frame.hpp:81-140 | each setter changes its own literal bytes and no other, and they then spell the value cut to the field |
| Frame.TopicSeqPriority | ipc/src/router/frame.hpp:42-43 | topic and sequence number are the numbers in bytes 2..3 and 4..7, priority is bits 4..6 of byte 1 |
| Frame.StampTime | ipc/src/router/shm_router_link.hpp:123-126 | after stamping, bytes 8..15 spell the timestamp |
| Frame.PayloadBytes | ipc/src/router/frame.hpp:151-159 | set_payload leaves bytes 0..31, copies the payload from byte 32 on and zeroes the rest |
| Frame.FreshBytes | ipc/src/router/frame.hpp:75-79 | init leaves the source in byte 0, 0xFF in bytes 16 and 17 and zeros elsewhere |
| Frame.RouterFrame.CopyAt | ipc/src/router/frame.hpp:151-159 | a memcpy into the frame overwrites exactly its window |
| Frame.RouterFrame.SetField | ipc/src/router/frame.hpp:81-140 | each setter's effect on the 64 bytes: which bytes change and what number they then spell |
| Frame.RouterFrame.Init | ipc/src/router/frame.hpp:75-79 | the buffer becomes the fresh frame of that source, every byte given |
| Frame.RouterFrame.WritePayloadBytes | ipc/src/router/frame.hpp:151-159 | more than 32 bytes throws before the frame is touched; otherwise payload from byte 32 on and zeros behind it |
| Frame.RouterFrame.ReadPayload | ipc/src/router/frame.hpp:165-172 | the trimming loop yields the payload without trailing NULs |
| Routing.RouteTargetsFor | ipc/src/router/routing.hpp:113-135 | the nested loops compute the specified lookup |
| Routing.TargetsAreFirstMatch | ipc/src/router/routing.hpp:113-135 | the lookup returns the destinations of the rule with this source and topic, or topic 0xFFFF, that no such rule precedes, or none |
| Routing.CoversIsExact | ipc/src/router/routing.hpp:119-125 | the covering check holds iff every frame the later rule matches the earlier one matches |
| Routing.OverlapIsExact | ipc/src/router/routing.hpp:119-125 | the overlap check holds iff some frame matches both rules |
| Routing.DeleteCovered | ipc/src/router/routing.hpp:113-135 | deleting a covered rule changes no lookup, the 0xFFFF default included |
| Routing.SwapAdjacent | ipc/src/router/routing.hpp:113-135 | swapping neighbours that share no frame, agree on destinations, or are shadowed by an earlier rule changes no lookup |
| Routing.MeetIsExact | ipc/src/router/routing.hpp:119-125 | the meet of two overlapping rules matches exactly the frames both match |
| Routing.SwapIff | ipc/src/router/routing.hpp:113-135 | in every table, swapping two neighbours keeps all lookups iff that check allows it |
| Routing.CompactPreservesMeaning | ipc/src/router/routing.hpp:113-135 | removing all covered rules of a table preserves every lookup |
| ShmRouter.FindFrom | ipc/src/router/shm_router_link.hpp:136-137 | the first channel with that peer id, or the end |
| ShmRouter.ShmRouterLink.SendToPeer | ipc/src/router/shm_router_link.hpp:135-162 | shed, enqueue, drop or "no channel", with the congested bit, and which counters move by one and that all others stay |
| ShmRouter.ShmRouterLink.CountDrop | ipc/src/router/shm_router_link.hpp:224-230 | one drop moves the total, the cell of its peer and the cell of its priority by one, and no other counter |
| ShmRouter.ShmRouterLink.TryReceive | ipc/src/router/shm_router_link.hpp:112-129 | first ready channel wins, short records are skipped and counted, an oversized record throws without being consumed, the frame buffer is stamped |
| ShmRouter.ShmRouterLink.ForwardOne | ipc/src/router/shm_router_link.hpp:81-104 | receive, route by the topic in bytes 2..3 and fan out; where it throws, what it leaves behind, and when recv_empty moves |
| ShmRouter.SendCounts | ipc/src/router/shm_router_link.hpp:135-162 | one send counts a forward, or a drop charged to its destination and to bits 4..6 of byte 1, or nothing without a channel |
| ShmRouter.ScanDecides | ipc/src/router/shm_router_link.hpp:112-129 | the scan stops at the first ring that is neither empty nor starts with a record below 64 bytes: it throws there on a longer record and leaves it, or hands over the 64-byte record, stamped; short records before it are gone |
| ShmRouter.ForwardFacts | ipc/src/router/shm_router_link.hpp:81-104 | one forward() read off the frame: targets by the topic in bytes 2..3, source in byte 0, time in bytes 8..15, recv_empty moved iff nothing came and nothing was thrown |
| ShmRouter.ShmRouterLink.SetPriorityDropFloor | ipc/src/router/shm_router_link.hpp:78-78 | changes the floor and nothing else |
| ShmRouter.ShmRouterLink.Attach | ipc/src/router/shm_router_link.hpp:40-61 | installs the channel table and nothing else |
| RouterRuns.StepKeepsInv | ipc/src/router/shm_router_link.hpp:81-162 | every step of publishers, router, subscribers or operator keeps the system invariant |
| RouterRuns.RunKeepsInv | ipc/src/router/shm_router_link.hpp:81-162 | so does every run |
| RouterRuns.NewFrameOk | ipc/src/router/shm_router_link.hpp:112-129 | a frame just received is newer than every copy already sent on from its source |
| RouterRuns.EnqueueKeepsOutbound | ipc/src/router/shm_router_link.hpp:149-152 | a copy put into a ring is genuine, routed there, and behind everything older |
| RouterRuns.EndToEnd | ipc/src/router/shm_router_link.hpp:81-162 | in every run, what a subscriber popped is an in-order, duplicate-free selection of full-size frames the named source published, unchanged outside byte 0 and bytes 8..15, addressed by the first matching rule |
| RouterRuns.WholeFrames | ipc/src/router/shm_router_link.hpp:135-162 | with slots of at least 64 bytes everything popped is a whole frame |
| RouterRuns.ReachableInv | ipc/src/router/shm_router_link.hpp:40-61 | every state reachable from a fresh bind satisfies the invariant |
| RouterConservation.DropKeepsSums | ipc/src/router/shm_router_link.hpp:224-230 | a drop raises both splits' sums by one (which cells, see ShmRouter.ShmRouterLink.CountDrop) |
| RouterConservation.PopAddsFanout | ipc/src/router/shm_router_link.hpp:112-129 | popping a record adds its own fan-out to the total |
| RouterConservation.PopAddsShort | ipc/src/router/shm_router_link.hpp:119-122 | popping a record adds a truncation iff it is short |
| RouterConservation.StepKeepsInbound | ipc/src/router/shm_router_link.hpp:112-129 | an inbound ring always holds exactly the publications not yet popped |
| RouterConservation.StepKeepsEgress | ipc/src/router/shm_router_link.hpp:135-230 | every step keeps forwarded + dropped + pending + abandoned = asked, both drop splits and every cell of them, with no hypothesis on the tables |
| RouterConservation.StepKeepsIngress | ipc/src/router/shm_router_link.hpp:112-129 | every step keeps asked = fan-out of the popped publications and truncated = short ones |
| RouterConservation.StepAbandonsNothing | ipc/src/router/shm_router_link.hpp:160-161 | with a channel for every target the "no channel" throw is unreachable |
| RouterConservation.StepKeepsLaws | ipc/src/router/shm_router_link.hpp:81-230 | every step keeps all conservation laws |
| RouterConservation.Conservation | ipc/src/router/shm_router_link.hpp:81-230 | for any tables and any ids, in every reachable state dropped_full = copies refused = sum per peer = sum per priority, each cell of the splits counts the refused copies for its peer and of its priority, ids without a channel are never charged, forwarded = copies in rings, truncated = short records popped, forwarded + dropped + pending + abandoned = total fan-out of received frames, and nothing is abandoned when every target has a channel |
| RouterConservation.DropsAreRouted | ipc/src/router/shm_router_link.hpp:135-162 | in every run each refused copy is a whole published frame, stamped, on its way to a target of the first matching rule |
| RouterConservation.ForwardIsARun | ipc/src/router/shm_router_link.hpp:81-104 | one forward() call is a run of the step system with nobody else moving, so the run theorems apply to the code |
| RouterConservation.ScanIsARun | ipc/src/router/shm_router_link.hpp:112-129 | the same for the receive scan and what follows it |
| RouterConservation.FanOutIsARun | ipc/src/router/shm_router_link.hpp:100-102 | the same for the fan-out loop |
| PriorityFloor.AdmissionDominates | ipc/src/router/shm_router_link.hpp:135-158 | one decision: a no fuller ring with a floor admits at or above the floor whatever the plain ring admits, and stays no fuller |
| PriorityFloor.StepDominates | ipc/src/router/shm_router_link.hpp:81-162 | one system step keeps the two-run simulation |
| PriorityFloor.FloorDominates | ipc/src/router/shm_router_link.hpp:78-158 | for the same events, with floors set and changed at will up to f, occupancy never exceeds that of a router without floor, every copy of priority f or more gets through as well, and drops of priority f or more are no more |
| FloorOrder.CongestedIffLastAttemptRefused | ipc/src/router/shm_router_link.hpp:206-208 | over any history of arrivals and drains the congested bit says whether the last attempted send found the ring full |
| FloorOrder.IdleFloorIsPlainDropOnFull | ipc/src/router/shm_router_link.hpp:69-78 | with floor 0, or with no arrival below the floor, the ring holds what plain drop-on-full would hold |
| FloorOrder.OrderedStaysBelow | ipc/src/router/shm_router_link.hpp:135-158 | under floors in that order the ring with the dominating floor is never fuller, step by step |
| FloorOrder.HigherFloorFuller | ipc/src/router/shm_router_link.hpp:143-156 | for all 0 < low < high < 8 and every ring size, a history that leaves the higher floor fuller |
| FloorOrder.LowerFloorFuller | ipc/src/router/shm_router_link.hpp:143-156 | for every lower floor below 8 and every ring size, a history that leaves the lower floor fuller |
| FloorOrder.FloorOrderIff | ipc/src/router/shm_router_link.hpp:69-78 | on a fresh ring of any size, floor g is never fuller than floor f over all histories iff f = 0, f = g or g >= 8 |
| FloorOrder.ShutDown | ipc/src/router/shm_router_link.hpp:143-147 | under a floor of 8 or more a congested ring only drains |
| FloorOrder.RecoveryIff | ipc/src/router/shm_router_link.hpp:69-78 | a congested ring can recover under some history iff the floor is at most 7 |
| FloorOrder.ShutDownInRuns | ipc/src/router/shm_router_link.hpp:143-147 | in whole runs a congested peer under such a floor gets no further frame |
| Starvation.PollKeepsWait | ipc/src/router/shm_router_link.hpp:112-129 | a poll of an earlier channel, whatever it finds, leaves unchanged how many more scans must start until channel j is polled |
| Starvation.StuckForEver | ipc/src/router/node.hpp:50-78 | in every run, whatever the peers publish, a stuck channel stays stuck and loses no record |
| Starvation.ServedInTheEnd | ipc/src/router/shm_router_link.hpp:112-129 | left to itself the router gets to a channel that is not stuck and pops its oldest record |
| Starvation.ServedIff | ipc/src/router/shm_router_link.hpp:112-129 | some run pops another record of channel j iff j is not stuck: a computation on the queues up to j and the place of the scan |
| Starvation.FrontBlocksTheRest | ipc/src/ipc/shm_spsc.hpp:228-230 | a record that is too long at the front of channel i, with no scan past i, makes i and every later channel stuck |
| Starvation.FrontsAreNotEnough | ipc/src/ipc/shm_spsc.hpp:228-230 | a record that is too long behind a frame on channel 0 makes every later channel stuck although no front is too long there |
| SharedRegions.DistinctNamesSeparate | ipc/src/router/shm_peer_address_io.hpp:27-45 | with pairwise different region names, runs over shared memory are runs over separate rings |
| SharedRegions.SharedConservation | ipc/src/router/shm_router_link.hpp:135-230 | the egress laws, every cell of the drop splits included, hold in every run whatever regions are shared |
| SharedRegions.OneFrameIsStamped | ipc/src/router/shm_router_link.hpp:112-129 | a frame of peer j is popped through the first channel on j's region and stamped with that channel's id |
| SharedRegions.SharedNameMisattributes | ipc/src/router/shm_router_link.hpp:112-129 | two peers on one name: a run in which a frame of the later is stamped with the id of the earlier |
| SharedRegions.PromiseIffDistinctNames | ipc/src/router/shm_router_link.hpp:81-162 | attribution and in-order, duplicate-free delivery hold in every run iff no two channels are on one region |
| SharedRegions.SharedTargetsDuplicate | ipc/src/router/shm_router_link.hpp:100-102 | two targets on one region put the frame into its ring twice |
| SharedRegions.OnePublicationTwoDeliveries | ipc/src/router/shm_router_link.hpp:81-162 | a whole run in which one publication is popped twice |
| SharedDelivery.StepApart | ipc/src/router/shm_router_link.hpp:81-162 | while no route leads from or to a shared region, every step keeps the delivery invariant of the channels that have a region to themselves |
| SharedDelivery.SafeSharingDelivers | ipc/src/router/shm_router_link.hpp:81-162 | under that condition every subscriber, on a shared region or not, gets whole routed frames in order and once, in every run |
| SharedDelivery.SharedSourceBreaks | ipc/src/router/shm_router_link.hpp:112-129 | a routed source on a shared region: a run delivers in its name what it never published |
| SharedDelivery.SharedTargetBreaks | ipc/src/router/shm_router_link.hpp:135-162 | a target on a shared region: a run in which another peer pops what was sent to it |
| SharedDelivery.DeliversIffSafeSharing | ipc/src/router/shm_router_link.hpp:81-162 | whole, routed, in-order, duplicate-free delivery holds for every subscriber in every run iff no route, as far as its fan-out gets, leads from or to a region two channels share |
| SeqTracker.Tracker.ObserveSource | ipc/src/router/source_seq_tracker.hpp:66-101 | the table and the answer after one observation, out-of-range sources included; what each counter counts is SeqTracker.AccountingForAnyStream |
| SeqTracker.Tracker.Reset | ipc/src/router/source_seq_tracker.hpp:136-140 | zeroes that source's slot and touches no other |
| SeqTracker.Tracker.Clear | ipc/src/router/source_seq_tracker.hpp:143-147 | zeroes every slot |
| SeqTracker.SourcesAreIndependent | ipc/src/router/source_seq_tracker.hpp:66-147 | after any commands a source's slot depends only on the commands about it |
| SeqTracker.WindowIsReadable | ipc/src/router/source_seq_tracker.hpp:79-100 | every number within half the counter range of the maximum is readable |
| SeqTracker.ObserveExactIff | ipc/src/router/source_seq_tracker.hpp:79-100 | classification, last_seq and each of the four counters after one observation are those of an integer tracker iff the number is readable: ahead by less than 2^31, or behind by a distance in the upper half modulo 2^32 |
| SeqTracker.TrackExact | ipc/src/router/source_seq_tracker.hpp:79-100 | readable streams are tracked exactly across any number of wraps |
| SeqTracker.TrackExactIff | ipc/src/router/source_seq_tracker.hpp:79-100 | a whole stream is tracked exactly at every point iff every number is readable when it comes |
| SeqTracker.TrackFromBlank | ipc/src/router/source_seq_tracker.hpp:66-101 | a slot's whole life: First, then exact; duplicates and out_of_order count the answers of that name, gaps the positions skipped, and samples - duplicates - out_of_order + gaps = 1 + forward advance |
| SeqTracker.UnwrapAllSpec | ipc/src/router/source_seq_tracker.hpp:79-81 | every stream of 32-bit numbers is the wrapping of an in-window integer stream |
| SeqTracker.AccountingForAnyStream | ipc/src/router/source_seq_tracker.hpp:66-101 | with no assumption on the stream: samples is its length, duplicates the number of Duplicate, out_of_order the number of OutOfOrder, gaps the positions skipped, of the unwrapped integers; and the accounting identity |
| SeqTracker.RestartAtZero | ipc/src/router/source_seq_tracker.hpp:25-29 | a restart at 0 counts missed frames iff the last number was strictly between 2^31 and 2^32 - 1; from 10^9 it is OutOfOrder |
| RouterTracker.NumbersReceived | ipc/src/router/shm_router_link.hpp:81-162 | the sequence numbers a subscriber sees from a source are its delivered publications' numbers, wrapped |
| RouterTracker.IncreasingStream | ipc/src/router/source_seq_tracker.hpp:79-100 | increasing numbers less than 2^31 apart yield only InOrder and Gap |
| RouterTracker.TrackedDeliveries | ipc/src/router/source_seq_tracker.hpp:66-101 | behind the router, a source that gives its full-size frames increasing numbers never shows Duplicate or OutOfOrder while deliveries are less than 2^31 apart, and samples + gaps is the span from first to last delivery, whatever was dropped or routed elsewhere |
| RouterTracker.ConsecutivePublisher | ipc/src/router/source_seq_tracker.hpp:66-101 | the same for a publisher that counts its full-size frames, short records or not |
| Topology.FindPeer | ipc/src/router/peer_table.hpp:95-107 | the search loop returns the first entry with the id |
| Topology.PeerById | ipc/src/router/peer_table.hpp:105-107 | a found entry is in the table with that id; none is found only if there is none |
| Loader.LoadedTopology.LoadRouter | ipc/src/router/topology_loader.hpp:263-302 | router table accepted iff valid; a transport's own listen key wins, and without it the primary listen serves its own kind and no other |
| Loader.LoadedTopology.LoadSideband | ipc/src/router/topology_loader.hpp:403-471 | accepts iff the sideband entry is valid and appends the region it spells: shm, version 1 and no device where keys are absent |
| Loader.LoadedTopology.LoadSidebands | ipc/src/router/topology_loader.hpp:400-477 | accepts iff all entries are valid and appends them in order |
| Loader.LoadedTopology.LoadPeer | ipc/src/router/topology_loader.hpp:312-398 | accepts iff the scalars are valid and the id is new |
| Loader.LoadedTopology.LoadPeers | ipc/src/router/topology_loader.hpp:304-477 | accepts iff all peers are valid with distinct ids; peers, sidebands and ranges are those the profile denotes |
| Loader.LoadedTopology.CheckListens | ipc/src/router/topology_loader.hpp:480-497 | accepts iff every datagram peer's transport has a listen |
| Loader.LoadedTopology.ExtractDests | ipc/src/router/topology_loader.hpp:519-537 | accepts iff every destination is an integer in 1..254 |
| Loader.LoadedTopology.CheckDests | ipc/src/router/topology_loader.hpp:556-591 | accepts iff destinations are peers, pairwise different and not the source |
| Loader.LoadedTopology.LoadRoute | ipc/src/router/topology_loader.hpp:501-592 | accepts iff the route is valid, its source taken modulo 256 |
| Loader.LoadedTopology.LoadRoutes | ipc/src/router/topology_loader.hpp:499-594 | the same for all routes |
| Loader.LoadedTopology.LoadTopic | ipc/src/router/topology_loader.hpp:600-677 | accepts iff the topic is valid and its id and name are new |
| Loader.LoadedTopology.LoadTopics | ipc/src/router/topology_loader.hpp:596-678 | accepts iff all topics are valid with distinct ids and names |
| Loader.LoadedTopology.CheckRouteTopics | ipc/src/router/topology_loader.hpp:680-697 | accepts iff every route topic is declared anywhere in the file |
| Loader.LoadedTopology.BuildFrom | ipc/src/router/topology_loader.hpp:259-698 | a profile is accepted iff it satisfies the one declarative predicate; then every table is the one it denotes, entry by entry, and the listens are its own keys or, without them, the primary listen of that kind |
| Loader.AcceptedIffDescribed | ipc/src/router/topology_loader.hpp:259-698 | without the loader's own predicate: a profile is accepted iff some peers, routes and topics are what it spells, ids and names once, every datagram peer heard, every route between peers and on a declared topic |
| Loader.DenotedTablesDescribe | ipc/src/router/topology_loader.hpp:259-698 | and the tables the loader builds are such tables |
| Loader.TablesEntryByEntry | ipc/src/router/topology_loader.hpp:304-678 | every number and name is the one given; absent keys stand for 0 (ring sizes) or 0xFFFF (route topic, sideband index); a route's source is taken modulo 256 |
| Loader.EntriesValidIff | ipc/src/router/topology_loader.hpp:312-477 | a peer, sideband or topic entry is accepted iff some table entry spells it, with the literal limits and defaults |
| Loader.RouteValidIff | ipc/src/router/topology_loader.hpp:501-592 | a route is accepted iff some rule spells it, between peers, no target twice and none its source |
| Loader.LoadedTopology.SidebandsFor | ipc/src/router/topology_loader.hpp:151-165 | nothing for an unknown id, else the slice of the first peer with the id |
| Loader.RangeCutsOutPeer | ipc/src/router/topology_loader.hpp:400-477 | one range cuts out exactly its peer's regions, in order |
| Loader.SidebandRangesPartition | ipc/src/router/topology_loader.hpp:400-477 | ranges are consecutive from 0, cover the table, and each holds exactly its peer's regions |
| Deployment.BindRouter | ipc/src/router/shm_router_link.hpp:40-61 | one channel per shm peer in table order, on the region its address names; throws iff there is none |
| Deployment.ChannelsAreShmPeers | ipc/src/router/shm_peer_address_io.hpp:27-45 | channels are exactly the shm peers, with their ring sizes or the defaults, each on the region it names |
| Deployment.ChannelInPlace | ipc/src/router/shm_router_link.hpp:48-56 | entry i of the table, if it is on shm, has the channel at the place given by the number of shm peers before it, with the ring sizes it gives or 256 slots of 1024 bytes |
| Deployment.ChannelsDistinct | ipc/src/router/shm_router_link.hpp:48-56 | distinct peer ids give distinct channel ids |
| Deployment.NamesDistinctIff | ipc/src/router/shm_peer_address_io.hpp:34-37 | the bound regions are pairwise different iff the shm peers' names are, leading slashes not counted |
| Deployment.LoadedRingsAreSized | ipc/src/router/topology_loader.hpp:360-396 | every channel of an accepted profile holds a frame per slot and maps below 2^50 bytes |
| Deployment.LoadedRulesAreSafe | ipc/src/router/topology_loader.hpp:555-591 | every accepted rule has distinct targets, all of them peers |
| Deployment.LoadedTablesAreSafe | ipc/src/router/topology_loader.hpp:259-698 | what acceptance gives the routers: ids distinct in 1..254, targets distinct and peers, a listen per datagram peer, ring sizes in bounds; region names are not among it |
| Deployment.ShmProfileCloses | ipc/src/router/topology_loader.hpp:555-591 | with all peers on SHM every rule target has a channel, and ids 0 and 255 have none |
| Deployment.AcceptedShmProfileConserves | ipc/src/router/shm_router_link.hpp:135-230 | in every run of an accepted all-SHM profile, whatever its region names, ids 0 and 255 are never charged, drops add up, each cell counts its own, and forwarded + dropped + pending = fan-out received; with different regions that is the fan-out of the publications popped |
| Deployment.AcceptedProfileDelivers | ipc/src/router/topology_loader.hpp:348-358 | for an accepted profile, every frame taken is stamped with its publisher and whole-frame, in-order, duplicate-free delivery holds, in every run, iff no two shm peers name the same region, leading slashes not counted |
| Deployment.AcceptedProfileDeliversIff | ipc/src/router/topology_loader.hpp:348-358 | for an accepted profile, delivery to every SHM subscriber in every run holds iff no route leads from or to a region two shm peers name |
| Deployment.SharedProfileIsAccepted | ipc/src/router/topology_loader.hpp:348-358 | a profile with two peers on one region is accepted |
| Deployment.AcceptedProfileMayDuplicate | ipc/src/router/shm_peer_address_io.hpp:27-45 | in a run of that profile one publication is popped twice by one peer |
| Deployment.SlashProfileIsAccepted | ipc/src/router/topology_loader.hpp:242-251 | a profile with peers on "/same" and "//same" is accepted |
| Deployment.SpellingIsNotEnough | ipc/src/router/topology_loader.hpp:242-251 | that profile's addresses differ and its regions do not: a run in which the promise fails |
| DatagramLink.ResolvedIff | ipc/src/router/datagram_peer_resolver.hpp:11-31 | a peer's datagrams are attributed to it iff no earlier peer answers to the same path or port |
| DatagramLink.FanOutIsAPrefix | ipc/src/router/link.hpp:101-103 | a send that throws at target n leaves exactly the first n targets delivered and counted, and n is the first that throws |
| DatagramLink.DatagramRouterLink.ResolveSender | ipc/src/router/datagram_peer_resolver.hpp:11-31 | the search loop computes the specified resolution |
| DatagramLink.DatagramRouterLink.TryReceive | ipc/src/router/link.hpp:115-133 | truncated and unknown datagrams are counted and refused, others stamped with the resolved source |
| DatagramLink.DatagramRouterLink.SendToPeer | ipc/src/router/link.hpp:138-145 | unknown ids are skipped, failures throw uncounted, successes are sent to the peer's address and counted |
| DatagramLink.DatagramRouterLink.SendAll | ipc/src/router/link.hpp:101-103 | the fan-out loop as specified, stopping at the first throw |
| DatagramLink.DatagramRouterLink.ForwardOne | ipc/src/router/link.hpp:62-105 | one whole iteration on a received datagram |
| MixedRouter.TopologyIsMixed | ipc/src/router/mixed_router_server.hpp:46-57 | true iff two peers use different transports |
| MixedRouter.FillIndex | ipc/src/router/mixed_router_server.hpp:61-73 | the index holds the transport of the last peer with each id, and the flags say which transports occur |
| MixedRouter.IndexAgreesIff | ipc/src/router/mixed_router_server.hpp:61-73 | for every table and id, index and linear search agree iff the first and the last entry with the id have the same transport |
| MixedRouter.IndexAgreesWithSearch | ipc/src/router/mixed_router_server.hpp:61-73 | with distinct ids they agree on every id |
| MixedRouter.DuplicateIdsSplitTheIndex | ipc/src/router/mixed_router_server.hpp:61-73 | concrete table with a repeated id on which they differ |
| MixedRouter.SendReachesItsPeer | ipc/src/router/mixed_router_server.hpp:203-218 | a send to a peer reaches exactly the one link that owns it and is counted once; no silent skip, no "no channel" throw |
| MixedRouter.FanAllCounts | ipc/src/router/mixed_router_server.hpp:195-198 | every target reached is counted as forwarded or dropped, and the loop stops only at a refused datagram |
| MixedRouter.ReceiveFacts | ipc/src/router/mixed_router_server.hpp:188-191 | receiving keeps the links well-formed and counts nothing as forwarded or dropped |
| MixedRouter.PollLosesNothing | ipc/src/router/mixed_router_server.hpp:180-200 | the same for one poll over any link |
| MixedRouter.PollRaisesIff | ipc/src/router/mixed_router_server.hpp:180-200 | a poll raises iff the SHM scan runs into a record longer than a frame, and then has no source and no targets, or the fan-out stopped short |
| MixedRouter.MixedRouterServer.constructor | ipc/src/router/mixed_router_server.hpp:61-83 | a link per transport present, an index equal to peer_by_id on all 256 ids when ids are distinct, zero counters |
| MixedRouter.MixedRouterServer.Bind | ipc/src/router/mixed_router_server.hpp:88-107 | binds the SHM channels; throws iff a datagram link present has no listen endpoint |
| MixedRouter.AcceptedProfileBinds | ipc/src/router/topology_loader.hpp:480-497 | for an accepted profile that throw cannot happen |
| MixedRouter.MixedRouterServer.SendToPeer | ipc/src/router/mixed_router_server.hpp:203-218 | dispatch through the index as specified on values |
| MixedRouter.MixedRouterServer.Receive | ipc/src/router/mixed_router_server.hpp:188-191 | try_receive of the chosen link, frame buffer included |
| MixedRouter.MixedRouterServer.SendAll | ipc/src/router/mixed_router_server.hpp:195-198 | the fan-out loop as specified, stopping where a send throws |
| MixedRouter.MixedRouterServer.PollLink | ipc/src/router/mixed_router_server.hpp:180-200 | one poll as specified, across transports, routed by the topic in bytes 2..3 |
| MixedRuns.StepBalances | ipc/src/router/mixed_router_server.hpp:180-218 | every single step of a poll, and every peer action in between, keeps the egress balance |
| MixedRuns.MixedConservation | ipc/src/router/mixed_router_server.hpp:153-218 | in every run, forwarded + dropped_full + refused by the kernel + still to send = egress asked for, whatever regions are shared; nothing is refused if the kernel takes every datagram |
| MixedRuns.MixedDropsSplit | ipc/src/router/shm_router_link.hpp:224-230 | in every mixed run the SHM link's dropped_full is the number of refused copies and the sum of its per-peer and of its per-priority counts, each cell counts its own, and no id without a channel is charged |
| MixedRuns.StepKeepsInv | ipc/src/router/mixed_router_server.hpp:180-218 | every step keeps the delivery invariant: receipts genuine, copies in order and addressed, the newest frame not yet where it still has to go |
| MixedRuns.MixedDelivery | ipc/src/router/mixed_router_server.hpp:180-218 | in every run over distinct ids, targets and regions, what an SHM subscriber popped is an in-order, duplicate-free selection of the frames accepted on any link, unchanged but for the stamp of the resolved sender, addressed by the first matching rule |
| MixedRuns.AcceptedMixedProfile | ipc/src/router/topology_loader.hpp:259-698 | from acceptance, in every run: the balance and the drop splits always, delivery of whole frames to SHM subscribers if the shm regions differ |
| MixedRuns.PollIsARun | ipc/src/router/mixed_router_server.hpp:180-200 | one poll_link call is a run of those steps with nobody else moving |
| NetDelivery.SendOnWire | ipc/src/router/mixed_router_server.hpp:203-218 | a send puts at most one datagram on the wire, for the address of the peer it is for and through the link of that address |
| NetDelivery.NetStep | ipc/src/router/mixed_router_server.hpp:180-218 | every step keeps: the log is what the links have sent, each datagram is addressed by the first matching rule, per target in order and once |
| NetDelivery.NoRivalDelivers | ipc/src/router/link.hpp:138-145 | in such a state, with no other peer at the address that can be sent anything, the address has received its peer's stream and nothing else |
| NetDelivery.RivalBreaks | ipc/src/router/link.hpp:138-145 | with such a peer, a run in which the address receives a frame twice or one not addressed to its peer |
| NetDelivery.NetDeliveryIff | ipc/src/router/mixed_router_server.hpp:180-218 | what is handed to the kernel for a datagram peer's address is genuine, addressed to that peer, in order and duplicate-free in every run iff no other datagram peer at that address can be sent anything, whichever addresses the kernel takes for one |
| NetDelivery.AcceptedProfileByNet | ipc/src/router/topology_loader.hpp:312-398 | the same from acceptance, which compares peer ids and no addresses |
| NetDelivery.OnePathProfileIsAccepted | ipc/src/router/topology_loader.hpp:312-398 | a profile with two peers on one path is accepted |
| NetDelivery.OnePathBreaks | ipc/src/router/link.hpp:138-145 | a run of that profile breaks the stream of one of the two |
| NetMetrics.KnownIsResolved | ipc/src/router/datagram_peer_resolver.hpp:11-31 | a sender resolves iff some peer answers to it |
| NetMetrics.ArriveCounts | ipc/src/router/link.hpp:115-133 | one datagram is counted truncated, counted unknown or accepted |
| NetMetrics.NetCounters | ipc/src/router/link.hpp:115-145 | in every mixed run recv_truncated counts the datagrams below 64 bytes a link heard, recv_unknown_source the whole ones no peer answers to, the accepted ones are all others in the order they came, and forwarded counts the datagrams sent |
| NetMetrics.AcceptedNetCounters | ipc/src/router/topology_loader.hpp:259-698 | the same from acceptance |
| WebSocket.MaskTwice | examples/bridges/node_gateway/websocket_server.js:127-131 | masking twice with the same key is the identity |
| WebSocket.XorIsBitwise | examples/bridges/node_gateway/websocket_server.js:127-131 | each of the eight bits of the result is 1 iff the operands differ in it |
| WebSocket.MaskAt | examples/bridges/node_gateway/websocket_server.js:127-131 | byte i is xored with byte i mod 4 of the key, and the length stays |
| WebSocket.XorLoop | examples/bridges/node_gateway/websocket_server.js:127-131 | the unmasking loop computes the mask of section 5.3, octet by octet |
| WebSocket.ReadLength | examples/bridges/node_gateway/websocket_server.js:100-115 | the length block in all three forms, with the server's size limit |
| WebSocket.TakePayload | examples/bridges/node_gateway/websocket_server.js:125-139 | payload copied or unmasked, header bits decoded |
| WebSocket.ReadBody | examples/bridges/node_gateway/websocket_server.js:117-139 | key and payload blocks, asking for more bytes when short |
| WebSocket.TryParseFrame | examples/bridges/node_gateway/websocket_server.js:93-140 | the whole parser as specified, for server and client; what it reads byte by byte is WebSocket.ParseIsSpelled |
| WebSocket.ParseAccounts | examples/bridges/node_gateway/websocket_server.js:93-140 | where a frame's bytes went; at least two bytes are consumed, so the loops terminate |
| WebSocket.ParseIsSpelled | examples/bridges/node_gateway/websocket_server.js:93-140 | the parser byte by byte: too large iff the server reads a 64-bit length above 2^53 - 1, complete iff length, key and payload are there, and then flags, opcode, length and every payload byte are those the bytes spell |
| WebSocket.ParseStable | examples/bridges/node_gateway/websocket_server.js:93-140 | bytes that arrive later never change an answer already given |
| WebSocket.Framed | examples/bridges/node_gateway/websocket_server.js:93-140 | header, announced key and announced payload parse as exactly one frame |
| WebSocket.TextRoundTrip | examples/bridges/node_gateway/websocket_server.js:46-68 | a text frame in any length form, followed by anything, parses to its payload and consumes itself |
| WebSocket.PongRoundTripIff | examples/bridges/node_gateway/websocket_server.js:82-87 | a pong reads back iff its payload has at most 125 bytes |
| WebSocket.CloseRoundTripIff | examples/bridges/node_gateway/websocket_server.js:70-80 | a close frame reads back, code and reason, iff the reason has at most 123 bytes |
| WebSocket.MaskedRoundTripIff | examples/bridges/node_gateway/ws_test_client.js:50-78 | the server recovers a client's masked control frame for every key, iff the payload has at most 125 bytes |
| WebSocket.DriveInTwoParts | examples/bridges/node_gateway/websocket_server.js:157-195 | running the loop, appending bytes and running it again is running it once on all bytes |
| WebSocket.FeedIsOneChunk | examples/bridges/node_gateway/websocket_server.js:157-195 | feeding chunks is feeding their concatenation |
| WebSocket.ChunkIndependence | examples/bridges/node_gateway/websocket_server.js:157-195 | any two splittings of a byte stream give the same replies, the same open/closed state and the same leftover while open |
| WebSocket.RegisteredWhileOpen | examples/bridges/node_gateway/websocket_server.js:219-231 | a connection is in the broadcast set iff it is open, in every run |
| WebSocket.Conversation | examples/bridges/node_gateway/websocket_server.js:157-195 | any frames of at most 125 bytes from a client, masked or not, in any chunks: the server writes exactly a pong with the same payload per ping, 1000 to a close, 1002 with its reason to unmasked data, up to the first frame that ends the connection, and is closed iff one does |
| WebSocket.TooLargeCloses | examples/bridges/node_gateway/websocket_server.js:164-169 | a length above 2^53 - 1 is answered with 1002 and its reason, and the buffer is dropped |
| WebSocket.CloseBytes | examples/bridges/node_gateway/websocket_server.js:70-80 | the bytes of the three close frames the server sends |
| WebSocket.ClosingHandshake | examples/bridges/node_gateway/ws_test_client.js:50-78 | any pongs and then a close from the client, any keys, any chunks: exactly one close 1000 goes back, the connection is closed and unregistered, and the client's parser reads the reply |
| WebSocket.ServerReadsReplies | examples/bridges/node_gateway/ws_test_client.js:144-155 | everything a client wrote, pongs and close, with any keys and in any chunks: the server is closed iff the client is exiting, and its only write is the one close 1000 |
| WebSocket.RepliesReadBack | examples/bridges/node_gateway/ws_test_client.js:223-225 | the server's parser reads every pong of the client with the payload of its ping, and its close with code 1000 |
| WebSocket.WsClient.SendCloseAndShutdown | examples/bridges/node_gateway/websocket_server.js:219-231 | writes the close frame and closes, once |
| WebSocket.WsClient.Receive | examples/bridges/node_gateway/websocket_server.js:157-195 | the receive loop computes the specified connection state and terminates |
| WebSocket.BroadcastRoundTrip | examples/bridges/node_gateway/ws_test_client.js:208-227 | the client loop decodes any list of encoded texts to exactly that list, cut at its count limit |
| WebSocket.ClientFeedIsOneChunk | examples/bridges/node_gateway/ws_test_client.js:208-227 | the client's result does not depend on how bytes are chunked |
| WebSocket.BroadcastInChunks | examples/bridges/node_gateway/ws_test_client.js:208-227 | however the server's frames are cut on the way, the client shows exactly the texts sent and exits only at its count limit |
| WebSocket.ClientConversation | examples/bridges/node_gateway/ws_test_client.js:208-227 | any frames of at most 125 bytes from the server, in any chunks: the client shows the texts and answers the pings before the first close or its count limit, and exits iff one came |
| WebSocket.MaskedFrame | examples/bridges/node_gateway/ws_test_client.js:50-78 | the masking loop builds the specified frame |
| WebSocket.TestClient.Exit | examples/bridges/node_gateway/ws_test_client.js:144-155 | one masked close 1000 is written, once |
| WebSocket.TestClient.AnswerPing | examples/bridges/node_gateway/ws_test_client.js:223-225 | one masked pong with the ping's payload is written |
| WebSocket.TestClient.Turn | examples/bridges/node_gateway/ws_test_client.js:208-227 | one turn of the loop, as specified |
| WebSocket.TestClient.Receive | examples/bridges/node_gateway/ws_test_client.js:208-227 | the data handler's loop computes the specified client state, and the bytes written are the replies it calls for |

## Left out

- Weak memory: the ring protocol interleaves sequentially consistent steps. The release store and acquire load of head and tail order the slot accesses in the code; effects below that are not modelled.
- SpscProtocol.RunRefinesFifo: fewer than 2^64 pushes, slot_count > 0 and payloads below 2^32 per slot; PushBoundIsExact and WrapLosesTheRing say what the next push does.
- ShmRegion.Ring.TryPush: needs a head below 2^64 - 1, for the same reason.
- ShmRouter.ShmRouterLink.SendToPeer: rings are values of the atomic FIFO, one per channel; the bytes are captured in ShmRegion, the interleaving in SpscProtocol and regions shared by name in SharedRegions.
- SharedRegions.PromiseIffDistinctNames: channels on one region are assumed to agree on where a record is; with different sizes that holds for the first record (FirstSlotIgnoresSizes), which is all the failing run uses, and what later records look like through other sizes is not modelled.
- SharedRegions.SharedConservation: with a shared region two producers or two consumers use one ring, so the single-producer, single-consumer refinement that justifies atomic ring operations does not apply; the shared runs still take each ring operation as one step, and races on the shared counters are not modelled.
- SharedDelivery.DeliversIffSafeSharing: the same, and as above a shared region is read at equal sizes; the failing runs use its first record only.
- Deployment.DistinctShmNames: that shm_open ignores leading slashes and nothing else of a name is taken from the platform.
- Metric counters are unbounded naturals, not uint64_t.
- The blocking push and pop loops and the "not bound" and "wrong role" guards of the handles: they only add spinning or an early throw.
- What the kernel does with a datagram it took, and which spellings of a path or host are one address: NetDelivery is about what is handed over, for any such relation between addresses.
- Sockets, shm_open, mmap, ftruncate and signals: a send is an oracle that succeeds or fails, a receive is a supplied datagram; rebinding regions while clients are attached and crash recovery are outside the code.
- Server run loops: idle sleep, idle exit, wall clock and the forward callback; one poll step is modelled.
- The TOML parser, address syntax (parse_address_) and error texts: the loader starts from a parsed tree with parsed or malformed address fields; strings are taken to hold no NUL bytes.
- Route rules hold a sequence of at most eight destinations after loading; the unused tail of the eight-element array is not modelled.
- WebSocket write failures, destroyed sockets, the socket-error path and broadcasting to several connections.
- UTF-8 conversion, the HTTP upgrade and its SHA-1 digest; the client's 64-bit lengths are exact here, while the original rounds those above 2^53.
- Echo servers, endpoint factories, the last-value cache, topic registry lookup, sideband headers, router_app.h, language peers, gateways and command-line scripts: easy members or plumbing.
