# A verified model of the Meshtastic BLE proxy

The firmware multiplexes up to six phones onto one Meshtastic node. It fetches the node's
configuration burst once over UART, caches it, replays it to every phone that asks, forwards the
phones' packets to the node and routes the node's packets to the phones. This project models that
logic in Dafny 4.11 and proves what it promises, over every input and every run.
`dafny verify dfyconfig.toml` checks everything.

## Layout

The model has two layers. The value layer gives each part as a state machine: a state, its events,
one step function, and runs as sequences of events. The run-long theorems are about these machines.

| module | part |
|---|---|
| `Prelude`, `Wire` | bytes, 32-bit words, deadlines; the protobuf layer as an arbitrary record of functions |
| `ConfigCache` | which burst frames are kept, and which of them a nonce is served |
| `UartRx`, `UartTx` | frame decoder with its ring and resync watchdog; transmit pump in steps as fine as its context switches |
| `Phones`, `Replay`, `Teardown`, `PhoneRuns` | slot table, serve-on-read replay, per-phone queue, deferred teardown |
| `Upstream`, `Watchdogs`, `Timing`, `Duties` | the session with the node, its phases, nonces and timers; what it may do and what it must |
| `ProxyProtocol` | the application-layer header |
| `Proxy`, `Invariants`, `Routing`, `Boundary`, `Isolation`, `EndToEnd`, `PhoneTraffic` | the composed proxy and the theorems that span its parts |
| `PowerUp`, `Pitfalls` | runs from power-up in which the code falls short of its documents, and exactly when |
| `SampleCodec` | a protobuf layer that meets all assumptions made about it |

The imperative layer has the firmware's own form: classes whose fields are the C statics and
structs (the packed arena and index, the decoder's payload buffer, the 16-deep ring with head, tail
and count, the array of connection records, the session's state and timers) and whose methods are
its functions. Each method is proved to take the object from one state of the value layer to the
next: `CacheStore.ConfigStore`, `UartDriver.Receiver`, `UartDriver.Transmitter`,
`SessionDriver.UpstreamSession`, `PhoneTable.Gatt`, `Firmware.ProxyFirmware`.

Handlers are atomic steps, as the firmware's cooperative run-to-completion threads make them
(docs/architecture.md, section 5.1), with two exceptions modelled more finely: the teardown handler
is split at its lock and at its disconnect, and the transmit path is split wherever a caller, the
work item or the completion interrupt can cut in. In the composed proxy the steps of the transmit work
item and its interrupts interleave with all other handlers; only a caller's put and submit, apart in
`UartTx`, are one step there. Connection objects are taken from a pool and reused
once unreferenced, so "the same connection" is never taken for granted.

Three theorems to start from: `EndToEnd.EndToEnd` (serial bytes in, phone reads out, from power-up),
`Isolation.PhonesDoNotInterfere` (other phones' steps can be erased from a run), and
`Boundary.NodeHearsOnlyTheProxy` (what the node decodes off the UART, as long as no aborted
transmission tears a frame).

## Where the code and its documents part ways

The model follows the code; each difference is a lemma.

- A phone's want_config is answered exactly while the session is LIVE. During a recovery it is
  absorbed although the cache is published, and during the boot fetch it is not parked, because
  src/main.c:75-77 returns before the branches that docs/upstream-session-robustness.md:50-54 and the
  comments describe: `Boundary.WantConfigServedIffLive`, `Boundary.UnansweredDuringRecovery`,
  `Boundary.NeverParked`; no reachable state has a PENDING phone: `Invariants.EveryReachableState`.
- "The terminator is served once": a stray terminator received during a recovery is still appended to
  the cache (src/upstream_session.c:444-451), and a phone past its own terminator then gets it again.
  Exactly when: `Replay.TerminatorAgainIffGrown`, over runs `Replay.ReplayExact`; on the running proxy:
  `Routing.StrayTerminatorRepeats`, from power-up `Pitfalls.TerminatorRepeatsFromPowerUp`.
- The liveness watchdog is lost if its expiry finds the transmit queue full
  (src/upstream_session.c:574-578): `Timing.LivenessArmedUnlessLost` says exactly when it is unarmed,
  `Timing.LostForGood` that a node sending only replies to keepalives is then never asked again (a
  genuine frame re-arms the watchdog, a reboot notice starts a recovery), and
  `Pitfalls.WatchdogLostFromPowerUp` that such a state is reached.
- Nonce 0 means "the stored one" (src/ble_gatt.c:746-749), and the store starts at 0
  (src/ble_gatt.c:177-197). So the terminator carries the nonce a phone asks with, except exactly when it
  asks with 0 after having asked with another: `Replay.EchoIff`. What is stored is the last nonce other
  than 0 that was asked with while LIVE: `EndToEnd.StoredNonceIsLastAsked`. The failing family:
  `EndToEnd.AskingWithZeroRepeats`; from power-up, 7 and then 0: `Pitfalls.ZeroIsNotEchoed`.
- A targeted packet for a phone that is leaving is dropped, not broadcast:
  `Teardown.TargetedDelivery`.
- Phones can interfere with another phone's replay reads in two ways, and in no other:
  `Isolation.OnlyRecoveriesAndSlotsInterfere`. Their packets to the node can take the place in the transmit
  queue that a recovery needs, which decides whether the phone's next want_config is answered:
  `Pitfalls.PacketsCanInterfere`, from power-up `Pitfalls.PacketsInterfereFromPowerUp`, exactly when after
  an expiry `Pitfalls.RecoveryShowsIff`. And their connections can take the last of the six slots, exactly
  when `Pitfalls.AdmissionShowsIff`; for that the stack's pool must be larger than the slot table
  (`Pitfalls.ConnectionsCanInterfere`, `Pitfalls.SlotsRunOutFromPowerUp`). As configured both are six
  (src/ble_gatt.h:9-11), so an unreferenced connection object always finds a slot and the rejecting branch
  src/ble_gatt.c:506-511 is dead code: `Isolation.PoolOfSixAdmits`. All this is about replay reads: live packets are shared out by design, and
  a phone that registers another's id in a lower slot receives what is targeted at that id
  (`Teardown.TargetedDelivery`).
- A transmission aborted between its second and its last byte leaves the node's decoder inside a frame
  (src/uart_meshtastic.c:323-327 goes straight on to the next packet), so a payload the proxy passes on
  unread can be decoded by the node as another message: `UartTx.AbortIsHarmlessIff` says exactly which
  aborts are harmless, `Pitfalls.TornFrameBreaksBoundary` shows a phone's disconnect getting through.
- A phone whose disconnect the Bluetooth stack refuses stays connected, leaving, and is never tried
  again (src/ble_gatt.c:446-448 only logs) until it asks again or its link is lost:
  `Teardown.RefusedDisconnectForgets`, `Teardown.ForgottenForGood`; from power-up:
  `Pitfalls.PhoneForgottenFromPowerUp`.

## Model

| member | source | states |
|---|---|---|
| `ConfigCache.GreedyKeepsAllIff` | src/config_cache.c:66-113 | nothing offered is dropped exactly when everything fits 4096 bytes and 128 frames |
| `ConfigCache.GreedyFits` | src/config_cache.c:71-86 | the kept frames respect both budgets, whatever is offered |
| `ConfigCache.GreedyExtends` | src/config_cache.c:88-112 | later offers never alter frames already kept |
| `ConfigCache.GreedyKeepsOffered` | src/config_cache.c:71-91 | the kept frames are whole offered frames, each once and in order, exactly those that found fewer than 128 frames and room in 4096 bytes |
| `ConfigCache.SegmentIsBurstFor` | src/config_cache.c:161-193 | 69421 asks for exactly the node_infos, 69420 for everything but terminators and later node_infos, any other nonce for everything but terminators, whole and in order |
| `ConfigCache.TerminatorOutsideSegments` | src/config_cache.c:169-173 | a terminator appended to the cache changes no nonce's segment, from any cursor on |
| `ConfigCache.TwoRoundsByIndex` | src/config_cache.c:175-192 | segments 69420 and 69421 cover the full burst and overlap exactly in the first node_info |
| `ConfigCache.TwoRoundsCoverBurst` | src/config_cache.c:161-193 | as multisets, the two rounds deliver the full burst plus the own node_info once more |
| `CacheStore.ArenaIsConcatenation` | src/config_cache.c:88-111 | the used part of the arena is the stored frames back to back, no gap, no overlap |
| `CacheStore.AppendStores` | src/config_cache.c:88-91 | copying behind the used part and indexing appends one frame and keeps the others |
| `CacheStore.ConfigStore.Begin` | src/config_cache.c:52-64 | the cache is empty and unpublished |
| `CacheStore.ConfigStore.Store` | src/config_cache.c:88-91 | arena and index denote the old frames followed by the new one |
| `CacheStore.ConfigStore.Append` | src/config_cache.c:88-112 | the frame is stored and the remembered own-node and queueStatus indices stay right |
| `CacheStore.ConfigStore.AddFrame` | src/config_cache.c:66-113 | success exactly when both budgets have room; then the frame is appended whole, else arena, index and counters are as before |
| `CacheStore.ConfigStore.MarkReady` | src/config_cache.c:115-121 | only the publish flag changes |
| `CacheStore.ConfigStore.FrameAt` | src/config_cache.c:129-135 | an entry is returned exactly for stored indices, with its variant |
| `CacheStore.ConfigStore.FrameBytes` | src/config_cache.c:137-143 | the bytes in the arena are the stored frame's |
| `CacheStore.ConfigStore.FrameCount` | src/config_cache.c:145-148 | the number of stored frames |
| `CacheStore.ConfigStore.FrameInSegment` | src/config_cache.c:161-193 | the branch cascade with the remembered own index decides segment membership |
| `CacheStore.ConfigStore.GetQueueStatus` | src/config_cache.c:150-159 | the last cached queueStatus frame, or none exactly when there is none |
| `UartRx.FramesWithinBounds` | src/uart_meshtastic.c:162-182 | whatever arrives, an emitted frame has 1 to 512 bytes |
| `UartRx.FrameDecodes` | src/uart_meshtastic.c:138-184 | a hunting decoder turns one encoded frame into exactly that payload |
| `UartRx.FrameLayout` | src/uart_meshtastic.c:245-250 | 0x94, 0xC3, big-endian length, payload |
| `UartRx.FramesAfterBadHeader` | src/uart_meshtastic.c:162-171 | after a header with length 0 or above 512 the frames that follow are received, exactly |
| `UartRx.FramingRoundTrip` | src/uart_meshtastic.c:138-184 | framed payloads with noise before, between and after them decode to exactly those payloads |
| `UartRx.DecodeConcat` | src/uart_meshtastic.c:206-208 | splitting the byte string anywhere changes neither frames nor final state |
| `UartRx.ChunkingIsInvisible` | src/uart_meshtastic.c:202-222 | over any interleaving of interrupts and work runs without overrun or abandoned frame, the frames are those of the undivided stream |
| `UartRx.PromptIsUndisturbed` | src/uart_meshtastic.c:188-222 | the stall watchdog never abandons a frame on a line whose work runs come less than 250 ms apart while a frame is incomplete |
| `UartRx.ResyncAlwaysArmed` | src/uart_meshtastic.c:188-222 | in every reachable state a decoder stopped mid-frame has its watchdog armed, and frames stay in bounds |
| `UartRx.RestartRecovers` | src/uart_meshtastic.c:188-198 | whatever was half received, once the stall watchdog fires or reception restarts, the frames that follow are received, exactly |
| `UartRx.StallIsNoticed` | src/uart_meshtastic.c:212-216 | a decoder left in the middle of a frame has its watchdog due 250 ms later |
| `UartRx.OverrunLosesTail` | src/uart_meshtastic.c:273-286 | the ring keeps the first 2048 bytes of what it holds and what arrives |
| `UartDriver.Receiver.OnReady` | src/uart_meshtastic.c:273-286 | the ring takes what fits and loses the rest |
| `UartDriver.Receiver.ProcessByte` | src/uart_meshtastic.c:138-184 | the buffer-and-counter state machine is one step of the decoder |
| `UartDriver.Receiver.TakeByte` | src/uart_meshtastic.c:206-208 | one byte off the ring leaves the decoding of the rest as it was |
| `UartDriver.Receiver.Work` | src/uart_meshtastic.c:202-222 | the drain loop decodes the whole ring and sets or cancels the watchdog |
| `UartDriver.Receiver.OnResync` | src/uart_meshtastic.c:188-198 | a stalled partial frame is abandoned |
| `UartDriver.Receiver.OnDisabled` | src/uart_meshtastic.c:303-314 | reception restarts at a frame boundary |
| `UartTx.PumpRunKeepsInv` | src/uart_meshtastic.c:231-261 | over every interleaving: no lost wakeup, one owner of the frame buffer, FIFO order, every accepted packet accounted for |
| `UartTx.StartsOldestPacket` | src/uart_meshtastic.c:240-254 | a start finds the line idle and sends the oldest packet not yet started |
| `UartTx.WakeupMakesProgress` | src/uart_meshtastic.c:231-261 | a queued work item on an idle line starts the head of the queue |
| `UartTx.SubmissionIsUsedUp` | src/uart_meshtastic.c:231-261 | a handler run uses up its submission; it is submitted again exactly after a start the driver refused |
| `UartTx.QueueDrains` | src/uart_meshtastic.c:231-261 | as many rounds of handler run and completion as packets wait empty the queue, completing them in order |
| `UartTx.CarriesOneMore` | src/uart_meshtastic.c:245-254 | a whole frame adds its payload to what a receiver between frames decodes |
| `UartTx.NodeReceivesArrivedPackets` | src/uart_meshtastic.c:245-254 | as long as no abort tore a frame, the receiver decodes exactly the non-empty packets whose last byte went out |
| `UartTx.AbortIsHarmlessIff` | src/uart_meshtastic.c:323-327 | every packet sent after an abort is received for what it is if and only if the abort came before the second byte or after the last |
| `UartTx.TornFrameSmuggles` | src/uart_meshtastic.c:323-327 | on a torn line a packet completes the torn frame with its first bytes and delivers a frame of its own with the rest |
| `UartDriver.Transmitter.Tx` | src/uart_meshtastic.c:382-402 | accepted exactly when at most 512 bytes and a slot is free; then queued and the work item submitted |
| `UartDriver.Transmitter.BuildFrame` | src/uart_meshtastic.c:245-250 | the buffer holds magic, big-endian length and payload |
| `UartDriver.Transmitter.Work` | src/uart_meshtastic.c:231-261 | one uninterrupted handler run is the pump's enter, check, take and launch steps |
| `UartDriver.Transmitter.OnDone` | src/uart_meshtastic.c:316-321 | completion releases the buffer and re-submits the work item |
| `UartDriver.Transmitter.OnAborted` | src/uart_meshtastic.c:323-327 | abort releases the buffer and re-submits the work item; the bytes already sent are on the line |
| `Phones.Skip` | src/ble_gatt.c:295-298 | the skipped frames are outside the segment; the frame stopped at is inside |
| `Replay.StageServesHead` | src/ble_gatt.c:282-318 | a fresh read serves the head of what is left and moves the cursor on; with nothing left it is empty and ends the replay exactly when the cache has not grown since, else the terminator again |
| `Replay.ReplayExact` | src/ble_gatt.c:272-340 | over any run of a slot, while the cache may gain terminators at any point: fresh reads and the reads that continue them return the parts of the segment in order, of the terminator, once more per fresh read that finds the cache grown, then nothing; live packets wait in the queue in order |
| `Replay.ArmedReplay` | src/ble_gatt.c:746-772 | from arming on, the segment and the terminator of the nonce asked for, or of the stored one for 0, remain to be served |
| `Replay.FailedArmKeepsReplay` | src/ble_gatt.c:760-768 | an arming whose terminator cannot be encoded stores the nonce and changes nothing else |
| `Replay.EchoIff` | src/ble_gatt.c:746-768 | the terminator carries the nonce asked with if and only if that is not 0 or nothing else was stored |
| `Replay.GrowthKeepsStanding` | src/ble_gatt.c:295-313 | terminators appended mid-replay leave what a phone has still to be served unchanged |
| `Replay.FollowsDelivers` | src/ble_gatt.c:305-318 | read by read: the answer in order, then empty exactly when the frame count is that of the read before, else the terminator |
| `Replay.TerminatorAgainIffGrown` | src/ble_gatt.c:308-318 | past its terminator a phone is served it again exactly when the cache has grown |
| `Replay.LiveReadIsOldest` | src/ble_gatt.c:319-328 | outside a replay a fresh read returns the oldest queued packet, and nothing exactly when none is queued |
| `Replay.LiveReadsInOrder` | src/ble_gatt.c:319-336 | over any run of a slot, what fresh reads outside replays return, in one part or several, is what was queued and accepted, packet by packet in order, up to what is still queued |
| `Replay.QueueConserved` | src/ble_gatt.c:631-682 | packets staged plus packets queued are the accepted ones in order; FROMNUM counts them and the arms modulo 2^32 |
| `Replay.LeavingQueueNeverGrows` | src/ble_gatt.c:650-653 | a leaving slot's queue only loses packets from the front |
| `Replay.LongReadReassembles` | src/ble_gatt.c:330-336 | chunked reads put the staged packet together, whatever happens between the chunks |
| `Replay.ChunkIsPart` | src/ble_gatt.c:330-336 | a read at an offset returns the bytes from there on, as many as asked for and there are; past the end it is an error |
| `Replay.LongReadIsWhole` | src/ble_gatt.c:330-336 | reads of any length, each for what follows the bytes so far and the last one short, put the whole packet together |
| `Replay.DeliversInFull` | src/ble_gatt.c:330-336 | so every packet of a replay that is read through to the end is brought whole |
| `Teardown.TeardownProtocol` | src/ble_gatt.c:408-455 | over every interleaving: references are owning slots plus handler, the counter counts slots, only who asked is dropped, and who asked is on its way out unless, and only unless, its last disconnect was refused and it has not asked again |
| `Teardown.HandlerDropsOnlyWhoAsked` | src/ble_gatt.c:430-454 | the connection about to be dropped asked for it in its current life and cannot have been reused |
| `Teardown.RefusedDisconnectForgets` | src/ble_gatt.c:441-448 | a disconnect forgets the phone exactly if the stack refused it, no new request came meanwhile and no earlier disconnect succeeded |
| `Teardown.AskingAgainHelps` | src/ble_gatt.c:833-854 | a second request puts a forgotten phone on its way out again |
| `Teardown.ForgottenForGood` | src/ble_gatt.c:441-455 | until it asks again or its link is lost, a forgotten phone is never dropped, and nothing more is queued for it |
| `Teardown.PhoneSeesOnlyItsEvents` | src/ble_gatt.c:167-175 | any table step acts on a phone's slot exactly by the events meant for that phone |
| `Teardown.TargetedDelivery` | src/ble_gatt.c:684-695 | the lowest connected slot with the id is offered the packet and no other; without one, all; a leaving target drops it |
| `PhoneRuns.PhoneQueueAccounts` | src/ble_gatt.c:631-682 | queue conservation and the leaving rule in every run of the whole proxy |
| `PhoneRuns.QueueAccountsFromConnect` | src/ble_gatt.c:177-197 | from power-up, for every phone that connects, the accounts start at zero and balance for as long as it stays |
| `PhoneTraffic.LivePacketsInOrder` | src/ble_gatt.c:319-336 | in every run of the proxy a phone's live reads return what was accepted for it, packet by packet in order, up to what is still queued |
| `PhoneTraffic.LivePacketsInFull` | src/ble_gatt.c:319-336 | read through to the end, the packets read, whole, and those still queued are the accepted ones in order |
| `PhoneTraffic.IdIsLastRegistered` | src/ble_gatt.c:697-708 | in every run, the id a phone is reached by is the last 4-byte id it registered |
| `PhoneTraffic.IdSinceConnect` | src/ble_gatt.c:177-197 | from power-up: since it connected, and the zero id if it registered none |
| `PhoneTraffic.RegisteredPhoneIsReached` | src/router.c:101-135 | after a phone registered an id that no lower slot holds, a proxied packet with that destination is offered to it alone |
| `PhoneRuns.TableFollowsTrace` | src/ble_gatt.c:710-727 | in every run of the proxy the slot table goes through exactly the run of its own event trace |
| `PhoneTable.PushAppends` | src/ble_gatt.c:670-674 | writing at tail appends to the ring's contents |
| `PhoneTable.PopRemovesFirst` | src/ble_gatt.c:320-324 | reading at head removes the oldest packet |
| `PhoneTable.StatusTells` | src/ble_gatt.c:631-682 | a packet is queued and counted exactly when it has at most 512 bytes and the phone is tracked, not leaving and has fewer than 16 queued; otherwise nothing changes |
| `PhoneTable.Gatt.FindSlot` | src/ble_gatt.c:167-175 | the scan finds the slot owning the connection, or none |
| `PhoneTable.Gatt.FindFree` | src/ble_gatt.c:179-180 | the scan finds the lowest free slot, or none |
| `PhoneTable.Gatt.OnConnected` | src/ble_gatt.c:499-524 | the lowest free slot is reset and owned, counters and references move; with no free slot nothing does |
| `PhoneTable.Gatt.AllocSlot` | src/ble_gatt.c:177-197 | the record is reset for its new owner |
| `PhoneTable.Gatt.OnDisconnected` | src/ble_gatt.c:526-538 | the slot is freed, its reference dropped and the counter moved; without a slot nothing changes |
| `PhoneTable.Gatt.FreeSlot` | src/ble_gatt.c:207-234 | the teardown is cancelled and the record reset |
| `PhoneTable.Gatt.SkipFrames` | src/ble_gatt.c:295-298 | the cursor loop stops where the segment continues |
| `PhoneTable.Gatt.StageReplay` | src/ble_gatt.c:284-318 | one fresh replay read of the specification |
| `PhoneTable.Gatt.StageNext` | src/ble_gatt.c:282-328 | one fresh read of the specification |
| `PhoneTable.Gatt.FromRadioRead` | src/ble_gatt.c:272-340 | a read stages at offset 0 only and returns the requested part of the staged packet |
| `PhoneTable.Gatt.Enqueue` | src/ble_gatt.c:631-682 | the packet is queued or refused with the right status; the doorbell rings when queued and when full |
| `PhoneTable.Gatt.BroadcastPacket` | src/ble_gatt.c:710-727 | every connected slot is offered the packet; the count is of those that took it |
| `PhoneTable.Gatt.GetConnByProxyId` | src/ble_gatt.c:684-695 | the lowest connected slot with the id; the zero id matches none |
| `PhoneTable.Gatt.RoutePacket` | src/router.c:121-133 | to the registered phone, else to all |
| `PhoneTable.Gatt.RegisterProxyId` | src/ble_gatt.c:697-708 | the slot's id is replaced; fails exactly when untracked |
| `PhoneTable.Gatt.ReplayCachedBurst` | src/ble_gatt.c:731-785 | the replay is armed with the given or the stored nonce |
| `PhoneTable.Gatt.ParkPending` | src/ble_gatt.c:787-796 | the phone is PENDING with its nonce; the call into the session is in `Firmware.ProxyFirmware.Park` |
| `PhoneTable.Gatt.RequestTeardown` | src/ble_gatt.c:833-854 | the slot is leaving at once and its teardown is due in 250 ms |
| `PhoneTable.Gatt.TeardownStarts` | src/ble_gatt.c:408-417 | the due work item is dequeued |
| `PhoneTable.Gatt.TeardownTakesRef` | src/ble_gatt.c:430-439 | a reference is taken exactly if the slot is owned and leaving |
| `PhoneTable.Gatt.TeardownDisconnect` | src/ble_gatt.c:441-455 | the held connection is dropped, or the stack refuses and nothing more is done; the reference is returned either way |
| `ProxyProtocol.ParseInvertsLayout` | src/proxy_protocol.c:20-36 | a payload parses to a header exactly when it is that header's layout |
| `ProxyProtocol.HeaderOnTheWire` | src/proxy_protocol.c:38-63 | version 1, sender, destination, content, at fixed offsets |
| `ProxyProtocol.IdValueIsBigEndian` | src/proxy_protocol.c:12-18 | the first byte is the most significant |
| `ProxyProtocol.IdValueInjective` | src/proxy_protocol.c:12-18 | ids are equal exactly when their numbers are |
| `ProxyProtocol.IsZero` | src/proxy_protocol.c:70-78 | the byte loop decides equality with the zero id |
| `ProxyProtocol.Build` | src/proxy_protocol.c:38-63 | the built bytes parse back to the same source, destination and content; failure leaves the buffer alone |
| `Watchdogs.WatchdogsStayAlive` | src/upstream_session.c:257-346 | in every reachable state fetch-retry is armed exactly during a fetch, keepalive from start on, nonces are never 0 or 1, the publish flag follows the phase |
| `Watchdogs.PhaseChanges` | src/upstream_session.c:411-494 | the only phase changes, and that a fetch ends exactly on a terminator with its own nonce |
| `Watchdogs.OneNoncePerFetch` | src/upstream_session.c:319-334 | a fetch keeps its nonce through all its retries |
| `Watchdogs.StepSends` | src/upstream_session.c:298-317 | a handler accepts at most one packet: the forwarded one, a want_config with the session nonce, or a heartbeat |
| `Watchdogs.PublishedStep` | src/upstream_session.c:433-451 | once published, only a stray terminator during a recovery touches the cache |
| `Watchdogs.PublishedCacheIsStable` | src/upstream_session.c:319-334 | through every later run the cache stays published and every nonce's segment unchanged |
| `Watchdogs.CacheHoldsLastAttempt` | src/upstream_session.c:319-334 | at every point of every run the cache is the greedy selection of the frames received since the boot fetch last started over, plus stray terminators once published |
| `Timing.KeepaliveBound` | src/upstream_session.c:257-293 | time since the last accepted transmission is at most 300 s plus 20 s per refused keepalive, plus lateness |
| `Timing.NodeNeverTimesOut` | src/upstream_session.c:71-80 | with fewer than 30 refusals in a row and 600 ms lateness, less than 15 minutes pass between packets accepted for the UART |
| `Timing.KeepaliveFiresAfterSilence` | src/upstream_session.c:532-543 | the deadline is exactly 300 s after the last push, or 20 s after a later refusal |
| `Timing.SteadyBurstIsNotRestarted` | src/upstream_session.c:425 | the retry never comes due during a burst whose frames come within 2 s of each other, however long it is |
| `Timing.LivenessArmedUnlessLost` | src/upstream_session.c:336-346 | while LIVE the liveness watchdog is unarmed exactly after an expiry that could not queue its want_config |
| `Timing.LostForGood` | src/upstream_session.c:574-578 | after such an expiry, while the node only answers keepalives, everything accepted for the UART is a phone packet or a keepalive: it is never asked again |
| `Timing.DeadSessionDetected` | src/upstream_session.c:587-593 | a session that hears only replies to its keepalives asks again by the deadline its last genuine frame set |
| `Timing.DeadSessionDetectedInTime` | src/router.c:77-87 | after a genuine frame, a node that sends nothing but keepalive replies is asked again within 30 minutes plus lateness |
| `Timing.SwallowsAtMostKeepalives` | src/upstream_session.c:545-552 | no more replies are swallowed than keepalives were queued |
| `Duties.RetryAsks` | src/upstream_session.c:319-334 | a due retry of an open fetch queues the want_config of its nonce whenever there is room |
| `Duties.StartAsks` | src/upstream_session.c:358-396 | the start opens the fetch with the nonce drawn, 0 and 1 replaced by 2, and asks whenever there is room |
| `Duties.RecoveryAsks` | src/upstream_session.c:560-585 | a LIVE session whose deadline passed, or whose node rebooted, asks with the nonce drawn and opens a fetch whenever there is room |
| `Duties.RefusedRecovery` | src/upstream_session.c:574-578 | without room nothing is asked and the session stays LIVE; the nonce is drawn and the deadline spent |
| `Duties.KeepaliveBeats` | src/upstream_session.c:257-293 | a due keepalive queues its heartbeat and expects a reply whenever there is room |
| `Duties.ExpectationIs` | src/upstream_session.c:270-287 | a reply is expected exactly from a queued keepalive until the next attempt or the next queueStatus outside a burst |
| `Duties.KeepaliveNoncesCount` | src/upstream_session.c:257-268 | successive attempts carry successive nonces, from 2^32 - 1 on to 2 |
| `Duties.ForwardIsQueued` | src/main.c:124-136 | a phone's packet is queued whenever there is room, in every phase |
| `Duties.PartsMakeTheWorkItem` | src/uart_meshtastic.c:231-261 | in the proxy, the steps of the transmit work item taken one by one are its run as a whole |
| `Duties.RetryIsOnTime` | src/upstream_session.c:319-334 | while a fetch is open its retry is due exactly 2 s after its opening, last frame or last retry |
| `Duties.ParkingRemembersOnce` | src/upstream_session.c:496-527 | a phone is remembered once, behind the others, if one of six places is left |
| `Duties.ParkingKeepsNonce` | src/ble_gatt.c:787-796 | a parked phone is PENDING with the nonce it asked with |
| `Duties.ParkedPhoneIsServed` | src/upstream_session.c:459-478 | a parked phone, if there were one, would be served the burst of its nonce when the boot fetch closes |
| `SessionDriver.UpstreamSession.SendWantConfig` | src/upstream_session.c:298-317 | queued exactly when it encodes and fits |
| `SessionDriver.UpstreamSession.RescheduleKeepalive` | src/upstream_session.c:532-543 | pushed out by the full interval once armed |
| `SessionDriver.UpstreamSession.KickLiveness` | src/upstream_session.c:587-593 | re-armed only while LIVE |
| `SessionDriver.UpstreamSession.SwallowLiveQueueStatus` | src/upstream_session.c:545-552 | true at most once per expected reply |
| `SessionDriver.UpstreamSession.StartUp` | src/upstream_session.c:351-399 | keepalive armed; BOOT if want_config does not encode, else FETCHING with an empty cache |
| `SessionDriver.UpstreamSession.OpenBootFetch` | src/upstream_session.c:383-396 | a refused want_config still opens the fetch, to be retried |
| `SessionDriver.UpstreamSession.Recover` | src/upstream_session.c:560-585 | REFETCHING exactly when no fetch is open and the want_config is queued |
| `SessionDriver.UpstreamSession.OnFetchRetry` | src/upstream_session.c:319-334 | resend with the same nonce; the cache is reset in the boot fetch only |
| `SessionDriver.UpstreamSession.OnLiveness` | src/upstream_session.c:336-346 | a recovery is attempted while LIVE |
| `SessionDriver.UpstreamSession.OnKeepalive` | src/upstream_session.c:257-293 | heartbeat, nonce with its wrap guard, expectation of a reply, next deadline |
| `SessionDriver.UpstreamSession.OnFromRadio` | src/upstream_session.c:411-494 | which frames are consumed, cached, or close the fetch, and whom to serve then |
| `SessionDriver.UpstreamSession.CloseFetch` | src/upstream_session.c:459-478 | publish after the boot fetch, LIVE, retry cancelled, liveness armed |
| `SessionDriver.UpstreamSession.OnPendingPhone` | src/upstream_session.c:496-527 | remembered once, up to six, or served at once when the cache is ready |
| `Invariants.EveryReachableState` | src/main.c:138-191 | every reachable state of the proxy satisfies all parts' invariants and fits the fixed buffers; no phone is ever parked |
| `Invariants.SessionFollowsTrace` | src/main.c:26-38 | in every run of the proxy the session goes through exactly the run of its own event trace |
| `Routing.FrameDisposition` | src/router.c:42-140 | for every frame in every reachable state, which slots are offered it |
| `Routing.BuiltHeaderFindsItsPhone` | src/router.c:101-135 | a header laid out for a registered id reaches exactly the lowest slot with it |
| `Routing.StrayTerminatorRepeats` | src/upstream_session.c:444-451 | a stray terminator in a recovery makes a drained phone read its terminator again instead of empty |
| `Routing.PublishedForGood` | src/upstream_session.c:555-559 | through any run of the proxy every phone's segment stays as published |
| `Boundary.WantConfigAbsorbed` | src/main.c:75-77 | outside LIVE a want_config leaves the whole proxy unchanged |
| `Boundary.WantConfigServedIffLive` | src/main.c:71-89 | a want_config arms the phone's replay exactly while LIVE |
| `Boundary.UnansweredDuringRecovery` | src/main.c:75-87 | from every LIVE state whose watchdog can ask, the next want_config goes unanswered although the cache is published |
| `Boundary.NeverParked` | src/main.c:79-87 | the dispatcher never parks and replays exactly in LIVE or CACHE_READY |
| `Boundary.AbsorbedWritesStayLocal` | src/main.c:91-112 | a heartbeat queues the synthesized reply for its writer, a disconnect starts its writer's teardown; node and other phones are untouched |
| `Boundary.RunBoundary` | src/upstream_session.c:257-317 | every packet accepted in a run was queued by one step, in the order of the steps, as that step may |
| `Boundary.VirtualizationBoundary` | src/main.c:59-136 | over every run, the k-th accepted payload was queued by one step of the session: a permitted phone write unchanged, a want_config with the session nonce of that step, or a heartbeat, nonces at least 2 |
| `Boundary.NodeHearsOnlyTheProxy` | src/main.c:40-58 | from power-up, in runs without torn frames, nothing the node decodes off the UART is a disconnect, and every want_config or heartbeat is the proxy's own |
| `Boundary.OneNonceOnTheWire` | src/upstream_session.c:298-399 | in every run, all want_configs accepted from the step that opens a fetch until it ends, the first included, carry the nonce chosen at that step |
| `Isolation.PhonesDoNotInterfere` | src/ble_gatt.c:272-340 | through recoveries, stray terminators and the phone's own reconnects, its replay reads, continuations of long reads included, are those of the run with all other phones' connects, reads, want_configs, heartbeats, registrations and disconnects erased, if it is given a slot in both runs or in neither whenever it connects |
| `Isolation.ConnectedPhoneIsUndisturbed` | src/ble_gatt.c:272-340 | without that condition for a phone that does not connect during the run |
| `Isolation.OnlyRecoveriesAndSlotsInterfere` | src/upstream_session.c:560-585 | erasing other phones' packets to the node too changes nothing as long as the same recoveries start and the same connects are admitted |
| `Isolation.OwnConnect` | src/ble_gatt.c:499-524 | a phone without a slot gets a fresh one exactly if one is free and nothing references its connection object; one with a slot keeps it |
| `Isolation.PoolOfSixAdmits` | src/ble_gatt.h:9-11 | with a pool of six connection objects, one that nothing references always finds a free slot |
| `Isolation.PacketsDoNotInterfere` | src/main.c:114-136 | in particular in runs without expiry and reboot notice, as far as connects are admitted alike |
| `Isolation.OthersStep` | src/main.c:59-136 | no step of anyone else changes what decides a phone's replay |
| `Isolation.OwnStep` | src/main.c:59-136 | a phone's own step acts exactly on its own slot |
| `EndToEnd.FetchPublishesBurst` | src/upstream_session.c:411-494 | a boot fetch publishes what offering the burst's non-packet frames in order selects, whatever follows the terminator |
| `EndToEnd.OfferBurstIsGreedy` | src/config_cache.c:66-113 | offered frame by frame or taken as a whole, the greedy selection is the same |
| `EndToEnd.SessionHearsReceiver` | src/main.c:26-38 | the session receives, in order, the decodable frames the receiver emits |
| `EndToEnd.SessionHearsAfterRestart` | src/uart_meshtastic.c:188-198 | in the proxy, after a stall or a restart of reception the session hears every decodable frame that follows, exactly |
| `EndToEnd.BurstReachesCache` | src/uart_meshtastic.c:174-182 | from bytes on the line to the published cache, under any chunking, any phone activity, a frame half received before and any frames after the terminator, if bytes come within 250 ms and frames within 2 s of each other |
| `EndToEnd.ContinuationOfStaged` | src/ble_gatt.c:330-336 | in every run of the proxy, the reads that continue a fresh one return the requested parts of the packet it staged, whatever happens in between |
| `EndToEnd.DrainFollows` | src/ble_gatt.c:272-340 | a published proxy serves what a replaying phone has left, through recoveries and whatever others do |
| `EndToEnd.PhoneReadsAnswer` | src/ble_gatt.c:272-340 | a LIVE proxy answers every want_config with segment and terminator of the nonce it arms, in whole packets however short the reads, whatever happens while the phone drains, then with nothing exactly when the cache has not grown since the fresh read before |
| `EndToEnd.StoredNonceIsLastAsked` | src/ble_gatt.c:746-749 | in every run, the stored nonce is the last one other than 0 the phone asked with while LIVE |
| `EndToEnd.AskingWithZeroRepeats` | src/ble_gatt.c:746-768 | a phone that asked with another nonce and then asks with 0 is served the segment and terminator of the first |
| `EndToEnd.PowerUpOpensFetch` | src/main.c:138-183 | whatever happens before the session is started, starting it opens the boot fetch |
| `EndToEnd.RetryOpensFetch` | src/upstream_session.c:319-334 | a retry opens it anew with the same nonce and an empty cache |
| `EndToEnd.EndToEnd` | src/main.c:138-183 | from power-up, after a burst that arrives steadily and any later run that ends LIVE: the phone, asking with any nonce and reading in pieces of any length, reads exactly the burst's frames that its nonce asks for, whole and in order, (the greedy selection if they do not all fit), then the terminator, none empty, then empty unless the cache has grown |
| `PowerUp.EndToEndApplies` | src/main.c:138-183 | its premises can be met, whatever the codec: a run from power-up in which the session fetches an empty burst and a connected phone can ask |
| `EndToEnd.TwoRoundsDeliverBurst` | src/config_cache.c:161-193 | a phone that drains 69420 and then 69421, in reads of any length, has read every frame of the full burst, the own node_info twice, and nothing else |
| `EndToEnd.KeptAliveFromPowerUp` | src/upstream_session.c:349-358 | from power-up, with fewer than 30 refusals in a row and 600 ms lateness, the last packet accepted for the UART is never 15 minutes old |
| `Pitfalls.RecoveryShowsIff` | src/main.c:75-77 | two systems that look alike to an idle phone answer it alike after an expiry if and only if both started a recovery or neither did |
| `Pitfalls.PacketsCanInterfere` | src/uart_meshtastic.c:392-397 | with one place left in the transmit queue at an expiry, another phone's packet decides whether a phone's want_config is answered |
| `Pitfalls.PacketsInterfereFromPowerUp` | src/uart_meshtastic.c:392-397 | such a run from power-up |
| `Pitfalls.AdmissionShowsIff` | src/ble_gatt.c:506-511 | two systems that look alike to a phone answer it alike after it connects if and only if both have a slot for it or neither has |
| `Pitfalls.ConnectionsCanInterfere` | src/ble_gatt.c:506-511 | with one slot and two connection objects left, another phone that connects first decides whether a phone is ever served |
| `Pitfalls.SlotsRunOutFromPowerUp` | src/ble_gatt.c:506-511 | such a run from power-up, with a pool of seven |
| `Pitfalls.ExpiryLosesIffFull` | src/upstream_session.c:574-578 | a due expiry loses the watchdog exactly if the transmit queue is full |
| `Pitfalls.WatchdogLostFromPowerUp` | src/upstream_session.c:336-346 | a run from power-up that loses it; no want_config is accepted after it while only keepalive replies arrive |
| `Pitfalls.TerminatorRepeatsFromPowerUp` | src/upstream_session.c:444-451 | a run from power-up in which a phone reads its terminator, then empty, and after a stray terminator the terminator again |
| `Pitfalls.ZeroIsNotEchoed` | src/ble_gatt.c:746-768 | a run from power-up in which a phone asks with 7, then with 0, and reads the terminator of 7 |
| `Pitfalls.PhoneForgottenFromPowerUp` | src/ble_gatt.c:441-448 | a run from power-up in which a phone that asked to leave is never dropped |
| `Pitfalls.PhoneDroppedFromPowerUp` | src/ble_gatt.c:408-455 | from power-up, a phone that says it is leaving is dropped 250 ms later if the stack obeys |
| `Pitfalls.TornFrameBreaksBoundary` | src/uart_meshtastic.c:323-327 | a run from power-up in which the node decodes a message of a phone's choice after an aborted transmission |
| `Firmware.ProxyFirmware.RouterDispatch` | src/router.c:42-140 | the cascade does to session and slots what the composed step says |
| `Firmware.ProxyFirmware.Admit` | src/router.c:68-87 | reboot notices and keepalive replies are withheld, everything else counts as life |
| `Firmware.ProxyFirmware.Deliver` | src/router.c:93-139 | by destination when well formed, else to all |
| `Firmware.ProxyFirmware.Park` | src/ble_gatt.c:787-800 | PENDING and remembered, or served at once when the cache is ready; untracked phones are ignored |
| `Firmware.ProxyFirmware.OnFromRadioUart` | src/main.c:26-38 | an undecodable frame is broadcast, any other dispatched |
| `Firmware.ProxyFirmware.OnRxWork` | src/uart_meshtastic.c:202-222 | every completed frame is dispatched in order |
| `Firmware.ProxyFirmware.OnToRadioBle` | src/main.c:59-136 | absorb, answer or forward, as the composed step says |
| `Firmware.WriteStep` | src/main.c:59-136 | a write either goes to the node or is answered from the slots, never both |

## Left out

- nanopb and the generated Meshtastic messages: decoders and encoders are arbitrary functions; theorems that need more assume that the proxy's own messages encode, fit their buffers and decode back (`Wire.Lawful`); `SampleCodec.SampleIsLawful` shows that this can be met.
- A failed config_complete encoding: the partially written terminator buffer keeps its previous contents in the model.
- The node's own receiver: what it decodes is computed with the proxy's decoder, without any timeout the node may have.
- What a refused `bt_conn_disconnect` means on the air: only that it failed, or that the link is down or going down.
- The Bluetooth stack, GATT table, CCC subscriptions, advertising, LOGRADIO, LEDs and DMA buffer swapping: foreign calls and hardware; FROMNUM notifications appear as the value rung by `Enqueue`.
- Non-zero offsets of TORADIO and NODE_REG writes, rejected by one test each.
- Memory ordering of the publish flag: publication is one step.
- The receive work item hands frames on after its drain loop instead of from inside it; dispatching does not touch the receiver.
- Rejected connections when all slots are taken: the stack's disconnect of the newcomer is not modelled, only that no slot changes.
- Phase 0 byte accounting, logging, route tracing, string renderers, src/pbx_stats.c and tools/: diagnostics and provisioning.
- docs/reconnect-persistence.md and docs/seq-numbers-pdr.md: designs without code.
