# RTKBase, modelled and proved

RTKBase reads the byte stream of a GNSS receiver, cuts validated RTCM 3 frames out of it, and
fans every frame out, without copying it, to up to three consumer tasks that forward it over
non-blocking sockets. Beside this pipeline it keeps two text rings for its web pages and a
table of configuration items. This project models that logic in Dafny and proves what it does.

## How it is laid out

**Splitter.** `Gf2` and `Crc24` give the checksum its algebra (polynomials over GF(2), and
section 6.1 of RFC 4880 for the polynomial, with initial value 0). `Frames` is the frame
format (transport layer of RTCM 10403, section 4). `SplitterSpec` says what the splitter does
byte by byte; `Splitter` is the code, a class with the splitter's fields, its buffer and the
shared replay buffer, whose two-source loop is proved to compute that fold. `Scanner` compares
it with an ideal backtracking scanner, `SplitterTheorems` holds chunk independence, soundness
and the printer/parser round trip, and `ReplayLoss` a stream on which splitter and scanner
differ.

**Pool and fan-out.** `FramePool` is the publisher's code (scan, copy, send, release) over
frames with counts. `Fanout` takes the same protocol apart into atomic steps of one publisher
and n consumers in any order, for n consumers, queues of depth D and more than n * (D + 1)
slots; RTKBase has n = 3, D = 16 and 56 slots. `PublisherRun` and `ConsumerRun` follow the
steps of one task when nobody interrupts it; the publishing call in `FramePool` and the loops
of `CasterTask` and `Uplink` are proved to be such runs.
`ValueQueues` is what it all must look like: each consumer with its own queue of frame values.
The refinement is proved for every interleaving.

**Sockets.** `Sockets` is an adversary that answers each send with any count, "would block" or
a failure, and the bounded retry loop three senders share. `RoverSpec`/`Caster`,
`BridgeSpec`/`TcpBridge` and `UplinkSpec`/`Uplink` are the three senders: first the
connection's history as values and the theorems over every run, then the code as classes that
update their fields in place and are proved to take the specification's steps. What such a
step does is also said without the step functions, in terms of the socket's answers alone
(`Sockets.Attempt` defines when a send loop ends): `RoverDelivery`, `BridgeDelivery` and the
second half of `UplinkSpec` hold these theorems and their consequences for peers that keep up.
`BridgeCounter` is about the bridge's counter of dropped chunks, which two tasks increment. `EndToEnd` says what
a splitter at the far end of a connection gets back. `Device` is the whole pipeline as one
machine, the steps of reader, pool, consumers, rovers and uplinks in any order and with UART
overflows: what arrives at the far end is valid and in line order. `DeviceAccount` says what
must arrive.

**Rings.** `RingBuffer` is the append and copy loop both rings share; `WebLog` and `Console`
are the two rings, and `ConsoleSpec` the console under concurrent writers, clears and a
consumer that copies outside the lock; what `Console` does is a run of it.

**Configuration.** `JsonCompat` has the lenient readers of numbers, booleans and addresses, and
`JsonForms` says which JSON values they accept, without them. `Config` has the two loops over
the item table and the round trip, `ConfigPost` what a posted tree does to the store, in terms
of its values alone. `ConfigTable` is the device's table itself and `DeviceSettings` its keys
by family: what posting each stores, and that no secret is shown.

Words of 32 bits are natural numbers with explicit wrap-around; `^` and `|` are `Crc24.Xor` and
`Crc24.Or` on binary digits. Ghost fields hold histories and states of the specifications and
decide nothing.

## Where the code falls short of the ideal

* A candidate that fails while replay bytes are unread overwrites them
  (`main/gnss_uart.c:373-380`). `Scanner.SplitterMatchesScanner` gives the exact condition
  under which nothing is lost, and `ReplayLoss.FrameMissed` 13-byte streams with a valid
  frame that the splitter misses and the scanner finds. All other splitter results hold with
  or without such a loss.
* The bridge's count of dropped chunks is incremented by two tasks on two cores without a lock
  (`main/tcp_server.c:52-54`). `BridgeCounter.DropCounterExactly`: it is the number of drops
  counted, modulo 2^32, as long as no task's store falls between the other's load and store,
  and behind after that. `BridgeCounter.UpdateLost` is such a run for every queue depth from 2
  on: two chunks dropped, one counted.
* A piece of text as long as its ring or longer keeps one byte less than the ring holds, so
  that an old byte can survive (`main/log.c:142-145`, `main/gnss_uart.c:158-161`).
  `RingBuffer.OversizeAppend` says exactly when the result is still the newest text, and
  `RingBuffer.StaleByteSurvives` what it is otherwise, for a ring of any size. No caller in
  the firmware appends so long a piece: log pieces have at most 512 bytes and console pieces
  fewer than 256, the rings hold 16384 and 8192.
* Two configuration keys that differ only in the case of letters would share one JSON field,
  because `cJSON_GetObjectItem` ignores case. `Config.RoundTripExactly` is the exact condition
  on a table of distinct keys: every store survives the round trip if and only if any two keys
  that differ only in case both belong to secrets. `Config.CaseClash` is an example of a table
  that fails it. The device's table is a constant that meets it (`ConfigTable.DeviceKeys`), so
  on the device the round trip holds (`ConfigTable.DeviceRoundTrip`).

## Model

| member | source | states |
|---|---|---|
| Crc24.Crc24q | main/gnss_uart.c:57-68 | the bitwise loop computes the checksum function, in 24 bits after every bit |
| Crc24.CrcIsRemainder | main/gnss_uart.c:57-68 | the checksum of m is the one remainder of m(x) * x^24 by the degree-24 generator |
| Crc24.OrAdds | main/gnss_uart.c:330-332 | words that share no bit are or-ed by adding them |
| Crc24.MatchIsMultiple | main/gnss_uart.c:329-334 | the comparison succeeds exactly if the whole frame is a multiple of the generator |
| Crc24.MatchIsZeroCrc | main/gnss_uart.c:329-334 | the comparison succeeds exactly if the checksum of the whole frame, trailer included, is 0 |
| Crc24.BurstsDetected | main/gnss_uart.c:329-334 | two buffers of one length that differ only within 24 consecutive bits cannot both pass |
| Crc24.OddErrorsDetected | main/gnss_uart.c:329-334 | no odd number of flipped bits passes |
| Frames.EncodeIsFrame | main/gnss_uart.c:302-334 | header, payload of 1 to 1023 bytes and checksum make a frame that the splitter's tests accept, payload intact |
| Splitter.FrameSplitter.Init | main/gnss_uart.c:281-285 | back to hunting with nothing buffered, also after lost UART bytes |
| Splitter.FrameSplitter.PushByte | main/gnss_uart.c:287-348 | one byte: the buffered candidate, the published frame or counted error, and the index to replay from; a stored candidate always has fewer bytes than its announced length, at most 1029 |
| Splitter.FrameSplitter.PushBodyByte | main/gnss_uart.c:319-344 | the body case; the defensive overflow branch cannot be reached |
| Splitter.FrameSplitter.JudgeBody | main/gnss_uart.c:326-344 | a complete candidate is published or counted as a checksum error, exactly as its checksum says |
| Splitter.FrameSplitter.Rewind | main/gnss_uart.c:364-373 | the failed candidate but for its sync byte becomes the replay buffer |
| Splitter.FrameSplitter.Turn | main/gnss_uart.c:358-382 | one round of the inner loop keeps the foretold outcome, and either reads on in its source or shrinks the bytes buffered and unread |
| Splitter.FrameSplitter.ProcessBytes | main/gnss_uart.c:350-393 | the loop over chunk and replay buffer ends, and is the fold of the per-byte step, counters and published frames included |
| SplitterSpec.ContinueSteps | main/gnss_uart.c:350-393 | reading a byte from either source and acting on it is one step of the fold |
| Scanner.SplitterMatchesScanner | main/gnss_uart.c:350-393 | trace and leftover equal those of a scanner that restarts one byte after each failed candidate if and only if no candidate fails strictly inside bytes already read; and exactly then no replay byte is lost |
| Scanner.StreamAccounts | main/gnss_uart.c:350-393 | skipped, discarded, published and buffered bytes are a subsequence of the stream, and with the lost ones as many |
| Scanner.ScanAccounts | main/gnss_uart.c:350-393 | the reference scanner accounts for every byte in place |
| ReplayLoss.FrameMissed | main/gnss_uart.c:373-380 | a false start before any frame of 7 bytes: the scanner publishes the frame, the splitter has overwritten its sync byte and does not |
| SplitterTheorems.ChunksCompose | main/gnss_uart.c:350-393 | feeding a + b at once equals feeding a, then b, from any live state, across replays at the boundary |
| SplitterTheorems.AnyChunking | main/gnss_uart.c:350-393 | any cutting of a stream into chunks gives the same result |
| SplitterTheorems.OnlyFramesPublished | main/gnss_uart.c:329-336 | every published frame has preamble, announced length and checksum right, lost bytes or not |
| SplitterTheorems.FramesInStreamOrder | main/gnss_uart.c:287-393 | the bytes of all published frames, in order, and then the buffered ones sit at strictly increasing stream positions |
| SplitterTheorems.LineParses | main/gnss_uart.c:287-393 | frames between gaps free of sync bytes come out exactly, no error counted, nothing buffered |
| SplitterTheorems.LineParsesInChunks | main/gnss_uart.c:287-393 | the same for encoded payloads under any chunking |
| SplitterTheorems.WholeFramesResplit | main/gnss_uart.c:287-393 | whole frames followed by a cut one: the whole ones are published, the cut one waits |
| FramePool.Pool.Init | main/frame_pool.c:13-21 | every count is 0 |
| FramePool.Pool.Alloc | main/frame_pool.c:30-44 | the first free frame, now with count 1 and otherwise untouched; null exactly if none is free |
| FramePool.Pool.SetRefs | main/frame_pool.c:50-53 | the count is set |
| FramePool.Pool.Release | main/frame_pool.c:60-68 | one reference less, and whether the frame was free already |
| FramePool.Publisher.SendTo | main/ntrip_client.c:463-475 | the queue takes the pointer if it has room, else it counts a drop and a reference goes back: one or two steps of the fan-out machine |
| FramePool.Publisher.Send | main/ntrip_client.c:463-475 | every queue with room gets the frame, every full one counts a drop, and the count ends as the number of takers |
| FramePool.Publisher.Publish | main/gnss_uart.c:240-258 | one slot holds the frame's bytes and length with that count; every other slot is untouched; with no queue or no free slot nothing changes; and the call is a run of the fan-out machine in which only the publisher moves |
| PublisherRun.ScanTakes | main/frame_pool.c:30-44 | the publisher's loads and its store lead to the first free slot |
| PublisherRun.CopyEnds | main/gnss_uart.c:252-254 | the copy's steps lead to the frame laid over the slot's bytes, its length and the count |
| PublisherRun.PublicationRuns | main/gnss_uart.c:240-258 | a publication and the steps it leads to are a run of the fan-out machine |
| Fanout.RtkbaseHasEnoughSlots | main/include/frame_pool.h:9-12 | 3 consumers with queues of 16 need at most 51 of the 56 slots |
| Fanout.FanoutRefinesValueQueues | main/gnss_uart.c:245-257 | in every interleaving, all that consumers see is a run of by-value queues: frames offered in publication order, refused only by a full queue, every byte and length read that of the frame taken |
| Fanout.PoolNeverFails | main/frame_pool.c:30-68 | no interleaving makes a scan fail or a release find a count of 0 or less |
| Fanout.EveryAccount | main/ntrip_caster.c:733-743 | per consumer and run: offered frames are the published ones in order, all of them when the publisher rests; the drop counter is the number refused, modulo 2^32; queue and hand hold the accepted frames not yet received and the last received |
| Fanout.ReadableIsBusy | main/frame_pool.c:30-44 | a slot in a queue or in a consumer's hands has a positive count, so the scan passes it |
| Fanout.OnlyUnreadSlotsWritten | main/gnss_uart.c:252-253 | a step that changes a slot's bytes or length changes one that no queue and no consumer has |
| Fanout.BusyBound | main/frame_pool.c:30-44 | queues and hands hold at most n * (depth + 1) references |
| Fanout.FreeSlotExists | main/frame_pool.c:30-44 | when a publication begins some slot is free |
| Fanout.ScanMatches | main/frame_pool.c:30-44 | a free slot stays ahead of the scan while consumers release, so each step of the scan keeps the refinement |
| Fanout.DropMatches | main/ntrip_client.c:469-472 | releasing the reference of a full queue keeps every count exact |
| Fanout.ReleaseMatches | main/ntrip_client.c:386-386 | a consumer's release keeps every count exact, whatever the publisher is doing |
| Fanout.AllSlotsReturn | main/frame_pool.c:60-68 | when publisher and consumers are done every slot is free again |
| ValueQueues.RunKeepsOrder | main/gnss_uart.c:256-257 | in every run of the ideal each consumer's offers are a prefix of the publications and its queue stays within its depth |
| ValueQueues.AcceptedAmongOffers | main/ntrip_client.c:463-475 | accepted frames are the offered ones in order, less the refused |
| Sockets.Socket.Send | main/ntrip_caster.c:282-282 | send as the adversary: some bytes, "would block", or a failure |
| Sockets.SendAll | main/tcp_server.c:229-266 | the retry loop is the loop function, and the wire grew by exactly the bytes the offset passed |
| Sockets.OffsetIsMoved | main/ntrip_caster.c:280-303 | the offset moves by the sum of what the calls took |
| Sockets.WhyItStops | main/tcp_server.c:242-263 | blocked means limit + 1 blocked calls in a row without progress, fatal a failed call or one that returned 0 |
| Sockets.LoopIsAttempt | main/tcp_server.c:229-266 | the loop makes the least number of calls after which all is sent, the last call failed or returned 0, or limit + 1 in a row blocked; which of these it was decides the result, and the offset moved by what the calls took |
| Sockets.SomeCall | main/tcp_server.c:233-234 | something to send is offered to the socket at least once |
| Sockets.KeenSends | main/ntrip_caster.c:280-303 | on a socket that from now on never fails and never blocks more than `limit` calls in a row the loop sends everything |
| RoverSpec.SendFrameKeeps | main/ntrip_caster.c:334-365 | from a live stream a frame leaves a live stream (tail flushed first, frame accepted whole, deferred or dropped whole) or a closed one |
| RoverSpec.EveryRoverStream | main/ntrip_caster.c:272-365 | over every run: wire and deferred tail are the accepted frames, a subsequence of the offered, the tail a proper part of the last; an ended connection is whole frames with at most the last cut |
| RoverSpec.EveryRoverOffered | main/ntrip_caster.c:677-688 | a connection is offered one uninterrupted stretch of the forwarded frames |
| RoverDelivery.FlushSends | main/ntrip_caster.c:308-332 | with a deferred tail some calls are made; what they took is on the wire, the rest stays deferred, and the connection is closed exactly if the last call failed or returned 0 |
| RoverDelivery.FrameSends | main/ntrip_caster.c:334-365 | for any link and any answers: the tail's calls, then, if it all went, the frame's; the wire is what they took; the frame is accepted exactly if some of it went (or it is empty) on a live connection, its rest deferred; closed exactly if the last call failed or returned 0 |
| RoverDelivery.RefusedByBlocking | main/ntrip_caster.c:334-357 | a frame refused by a connection that goes on met ROVER_STREAM_SEND_RETRIES + 1 blocked calls in a row |
| RoverDelivery.KeenFrame | main/ntrip_caster.c:334-365 | whatever was deferred, on a socket that keeps up the frame is accepted, the wire is the old tail and then the frame, nothing is deferred |
| RoverDelivery.KeenAgain | main/ntrip_caster.c:272-365 | from any streaming slot whose socket keeps up from now on, over every run without a hang-up: every frame is accepted, and from the next frame on the wire is the accepted frames |
| RoverDelivery.CutRoverRecovers | main/ntrip_caster.c:272-365 | so it is for every slot that a run of the caster leaves streaming, whatever tail a blocked socket left there |
| RoverDelivery.KeenRover | main/ntrip_caster.c:334-365 | a rover served from the start whose socket keeps up has every frame on the wire, whole and in order |
| Caster.Rover.Close | main/ntrip_caster.c:500-521 | the slot is empty with nothing deferred |
| Caster.Rover.Accept | main/ntrip_caster.c:603-618 | a new connection takes an empty slot and starts clean |
| Caster.Rover.SendBytes | main/ntrip_caster.c:272-306 | the retry loop on one rover; a fatal answer closes it |
| Caster.Rover.Flush | main/ntrip_caster.c:308-332 | the deferred tail goes out, moves on, or goes with the connection |
| Caster.Rover.Defer | main/ntrip_caster.c:358-361 | the unsent rest of the frame becomes the tail |
| Caster.Rover.SendOne | main/ntrip_caster.c:334-365 | in place what `SendFrame` is on values, wire included |
| Caster.Server.Forward | main/ntrip_caster.c:680-686 | one frame to every streaming rover, each as if alone, the others untouched |
| CasterTask.Task.ForwardOne | main/ntrip_caster.c:679-687 | the frame at the head of the queue goes to every rover and is released; the taking and the release are the consumer's two steps in the fan-out machine |
| CasterTask.Task.ForwardAll | main/ntrip_caster.c:677-689 | the loop empties the queue, every rover is served the waiting frames in order, and all of it is a run of the consumer in the fan-out machine |
| ConsumerRun.TurnRuns | main/ntrip_client.c:347-386 | one more frame taken from the queue and given back extends a consumer's run by a receive and a release |
| Device.FromTheLineToARover | main/ntrip_caster.c:679-688 | from the serial line through splitter, pool and caster, in every run with any interleaving, UART overflows and socket answers: for every slot of the rover table, wire and tail re-split into exactly its accepted frames, valid and in line order; ended connections up to one cut frame |
| Device.FromTheLineToAnUplink | main/ntrip_client.c:347-387 | the same for every uplink: what it received is valid and in line order, its connection reads back as the frames it was given, earlier ones up to their last |
| Device.ForwardedOffTheLine | main/gnss_uart.c:515-544 | what any consumer forwarded is valid frames whose bytes are in the order of the line, across the resets after an overflow |
| Device.FoundFits | main/gnss_uart.c:240-258 | a frame the splitter found always fits a pool slot, so it can be handed over when the publisher is idle |
| Device.NextKeeps | main/gnss_uart.c:506-544 | every step of reader, pool, consumers, rovers and uplinks keeps the joint invariant |
| DeviceAccount.FoundExactly | main/gnss_uart.c:515-544 | in every run the frames found are exactly those a fresh splitter finds in each stretch of the line between two overflows |
| DeviceAccount.LineAccount | main/gnss_uart.c:240-258 | when the reader has handed everything over, each consumer was offered all frames found; the accepted ones are those it forwarded and then those still in its queue and hands; its counter has the others, modulo 2^32 |
| DeviceAccount.OnlyFullQueuesRefuse | main/ntrip_client.c:463-475 | in every run a frame is refused to a consumer only while its queue is full |
| DeviceAccount.EveryFrameForwarded | main/gnss_uart.c:515-532 | encoded payloads with gaps free of sync bytes, no overflow and no refusal: a consumer with nothing left to do has forwarded exactly the encoded frames |
| DeviceAccount.EveryFrameReachesTheRover | main/ntrip_caster.c:272-365 | then a rover served from the start whose socket keeps up has exactly those frames on its wire, nothing deferred |
| DeviceAccount.EveryFrameReachesThePeer | main/ntrip_client.c:347-387 | and so has an uplink that connected at once to a peer that stays and keeps up |
| EndToEnd.RoverOffTheLine | main/ntrip_caster.c:272-365 | if the frames offered to a rover are valid and off the line in order, so are those its connections accepted, and they read back |
| EndToEnd.LiveResplits | main/ntrip_caster.c:272-365 | a splitter reading wire and tail publishes exactly the accepted frames |
| EndToEnd.ClosedReadsBack | main/ntrip_caster.c:298-300 | a splitter reading an ended connection publishes every whole frame and waits for the cut one |
| EndToEnd.UplinkReadsBack | main/ntrip_client.c:326-399 | the same for an uplink's connections |
| BridgeSpec.EveryRunKeeps | main/tcp_server.c:335-549 | every interleaving of posting, accepting, draining, counting, sending and disconnecting keeps first-in-first-out, the account of chunks and the streams |
| BridgeSpec.BridgeStreams | main/tcp_server.c:483-549 | wire and unsent rest are the chunks taken; ended connections have at most the last cut; the chunks removed (sent, dropped or discarded) followed by the queue are the ones that entered it, those are posted ones in posting order, and the connections' chunks are exactly the removed ones marked sent; with those lost and the one in the poster's hand the numbers add up to all posted |
| BridgeSpec.TransmitKeeps | main/tcp_server.c:497-516 | sending the pending chunk on keeps the stream, blocked, done or fatal |
| BridgeDelivery.RestIsSent | main/tcp_server.c:505-521 | the server's step with a chunk pending, for any answers: the wire grows by what the calls took of its unsent rest, some call is made if there is a rest, the client is gone exactly if the last call failed or returned 0, the chunk stays pending at the offset reached exactly if SOCKET_MAX_RETRIES + 1 calls in a row blocked, else all of it went; nothing else changes |
| BridgeDelivery.OldestIsSent | main/tcp_server.c:524-548 | the same for the oldest chunk of the queue, which is taken off and recorded as sent |
| BridgeDelivery.KeenBridge | main/tcp_server.c:335-549 | in every run without requests, commands or departures and with sockets that keep up: the wire is the chunks taken; with an empty queue and no chunk dropped, lost or in the poster's hand it is exactly the posted chunks |
| BridgeDelivery.QueueGoesOut | main/tcp_server.c:524-548 | with a client that keeps up the server's next steps, one for each waiting chunk and one more, put the whole queue on the wire and end the pass |
| BridgeSpec.PosterKeeps | main/tcp_server.c:159-180 | a posting step with drop-oldest keeps order and account, also when the queue is drained in between |
| BridgeCounter.DropCounterExactly | main/tcp_server.c:52-54 | in every run the counter is the drops counted, modulo 2^32, if no task's store fell between the other's load and store; otherwise it is behind, and below 2^32 drops it is then wrong |
| BridgeCounter.UpdateLost | main/tcp_server.c:172-178 | for every depth from 2 on a run in which a post and a drain drop two chunks and the counter moves by one |
| TcpBridge.Bridge.Post | main/tcp_server.c:159-180 | steps of the poster alone; with a client the queue is the newest 64 of what it held and the new chunk, one drop counted if full; without one nothing changes |
| TcpBridge.Bridge.Drain | main/tcp_server.c:85-96 | steps of the server; the queue is empty and every chunk counted as dropped |
| TcpBridge.Bridge.RequestDisconnect | main/tcp_server.c:120-135 | with a client the request is one step of the specification, without one nothing happens |
| TcpBridge.Bridge.Disconnect | main/tcp_server.c:408-422 | a request with a client ends its connection and forgets queue and pending chunk, any request is cleared |
| TcpBridge.Bridge.Accept | main/tcp_server.c:430-478 | a client stays, else a waiting connection is taken up, or given up when its options fail |
| TcpBridge.Bridge.ServeClient | main/tcp_server.c:481-500 | a peer that went is closed and its pending chunk forgotten, a command drains the queue and counts it |
| TcpBridge.Bridge.SendPending | main/tcp_server.c:505-520 | the fields become those of the specification after the send: more on the wire, pending exactly if blocked, client closed exactly if fatal |
| TcpBridge.Bridge.PumpOne | main/tcp_server.c:524-547 | one chunk becomes pending and is sent, or is discarded without a client: one step of the server |
| TcpBridge.Bridge.Pump | main/tcp_server.c:524-548 | n chunks leave the queue; while the client lives they are taken for it, if it went those up to its last were; ends with a chunk pending or an empty queue |
| TcpBridge.Bridge.Serve | main/tcp_server.c:481-548 | from the client's input on: what is left of a pass is a run of the server's steps, and ends with a chunk pending or an empty queue |
| TcpBridge.Bridge.Pass | main/tcp_server.c:408-548 | one pass of the server loop is a non-empty run of the server's steps in the specification; it clears any request and, unless a new client was given up, ends with a chunk pending or an empty queue |
| UplinkSpec.EveryUplinkRun | main/ntrip_client.c:326-399 | over every run: the wire is whole frames in queue order, only an ended connection may have cut its last; every received frame released once; the waits are those due by the worlds alone: after each failed connect min(2000 * 2^k, 60000) ms, k being the failures since the last success, and while connected the delay is back at 2000 |
| UplinkSpec.LongerIsBackoff | main/ntrip_client.c:339-341 | doubling with the cap follows min(2000 * 2^k, 60000) |
| UplinkSpec.PassSends | main/ntrip_client.c:332-398 | a pass with a connection, for any answers: the wire grows by what the frame's calls took, the frame is received and released once, and the connection goes on exactly if all of it went and the peer is there |
| UplinkSpec.PassWithout | main/ntrip_client.c:333-343 | a pass whose connect fails takes nothing from the queue |
| UplinkSpec.KeenOn | main/ntrip_client.c:347-384 | a connection whose peer stays and keeps up has every frame given to it on the wire, over every run |
| UplinkSpec.KeenUplink | main/ntrip_client.c:332-398 | an uplink that is down, whatever happened before, and connects to a peer that stays and keeps up has every frame received from then on on the wire |
| Uplink.UplinkTask.SendFrame | main/ntrip_client.c:350-384 | the loop with pointer and remaining count is the retry loop with limit 20, closing on blocked or fatal |
| Uplink.UplinkTask.Forward | main/ntrip_client.c:347-387 | a received frame is sent and given back on every exit, as the consumer's two steps in the fan-out machine |
| Uplink.UplinkTask.Pass | main/ntrip_client.c:332-398 | one iteration of the task is one step of the specification, and takes at most one frame from the queue |
| RingBuffer.PushExtends | main/log.c:147-153 | a byte written at the head joins the window and evicts the oldest when full, across the wrap |
| RingBuffer.PushAllWindow | main/log.c:147-153 | writing a piece byte by byte leaves the newest of the old window and the piece |
| RingBuffer.Append | main/log.c:140-154 | the window becomes the newest bytes of the old window and what is kept of the data |
| RingBuffer.OversizeAppend | main/log.c:142-145 | that is the newest of all written if and only if the data is shorter than the ring, or the byte before the kept ones equals the last old one |
| RingBuffer.StaleByteSurvives | main/log.c:142-145 | an oversized piece after a different last byte leaves that byte in front of the piece's newest n - 1 |
| RingBuffer.AppendsKeepNewest | main/log.c:140-154 | after any appends shorter than the ring the window is the newest of the whole history |
| RingBuffer.CopyNewest | main/log.c:238-250 | the newest bytes that fit the destination, terminated, nothing beyond written |
| WebLog.Log.Append | main/log.c:140-154 | the log's ring after an append |
| WebLog.Log.Snapshot | main/log.c:231-251 | the newest text that fits; nothing without a destination |
| WebLog.SnapshotOfHistory | main/log.c:231-251 | with short pieces: the last min(total, capacity, destination - 1) bytes of the history |
| Console.Console.Append | main/gnss_uart.c:154-170 | the active buffer's window becomes the newest of it and what is kept of the data, and the history of the specification grows by that |
| Console.Console.Snapshot | main/gnss_uart.c:621-642 | the newest text that fits, the console unchanged |
| Console.Console.Consume | main/gnss_uart.c:644-674 | delivers the newest text that fits and leaves an empty console on the other buffer: the swap, the copies byte by byte and the end, as steps of the specification |
| Console.Console.Clear | main/gnss_uart.c:676-687 | the console is empty, one step of the specification |
| Console.Console.Delivered | main/gnss_uart.c:644-687 | what this code's consumers got is each ended epoch's newest text, and the epochs with the current one are the history |
| ConsoleSpec.ExactlyOnce | main/gnss_uart.c:644-687 | under concurrent writes and clears: history is the ended epochs and the current one, consumers got each consumed epoch's newest text in order, and the ring holds the current epoch's |
| ConsoleSpec.SwapPromises | main/gnss_uart.c:654-671 | the swapped-out buffer, read from the computed start, is the text due |
| JsonCompat.ReadIp4 | main/nvs_config.c:99-119 | four octets, number or text, or-ed into one word; refused otherwise |
| JsonCompat.OctetOrs | main/nvs_config.c:114-114 | or-ing an octet into the address adds it, its bits being 0 so far |
| JsonCompat.DecimalReads | main/nvs_config.c:60-97 | the decimal text of a number is read as the number itself is |
| JsonCompat.NegativeWraps | main/nvs_config.c:85-92 | the text of -n is accepted as 2^32 - n |
| JsonCompat.OctetsRoundTrip | main/nvs_config.c:105-117 | the octets of a word give the word back |
| JsonForms.NumbersExactly | main/nvs_config.c:60-97 | accepted as n: exactly the number n up to the maximum, or text of white space, an optional sign and digits to the end, below 2^32, a minus sign negating modulo 2^32 |
| JsonForms.SwitchesExactly | main/nvs_config.c:26-58 | accepted: exactly true, false, 1, 0 and their texts, words in any case |
| JsonForms.AddressesExactly | main/nvs_config.c:99-119 | accepted: exactly arrays of four accepted octets, the first the lowest of the word |
| JsonForms.NoNumber | main/nvs_config.c:60-97 | never accepted: other kinds of values, negative numbers, fractions, numbers above the maximum, empty text, text that ends in anything but a digit |
| JsonForms.NoAddress | main/nvs_config.c:101-113 | never accepted: arrays of another length, or with a part that is no octet |
| Config.Store.CfgToJson | main/nvs_config.c:502-566 | the loop prints the table's items in order, secrets as the placeholder |
| Config.Store.CfgJsonToNvs | main/nvs_config.c:574-741 | the loop leaves the store and reports the failure that `FromJson` says; `ConfigPost.PostExactly` says what that is |
| Config.EachItemAlone | main/nvs_config.c:585-727 | with distinct keys every item is treated as if alone, nothing else is touched, and an error is reported exactly if some item has one |
| ConfigPost.ReadMeans | main/nvs_config.c:592-726 | an item reads its field as v exactly if the field means v for its kind: a text as it is, a secret likewise unless it is the placeholder, numbers, switches and addresses as accepted |
| ConfigPost.LookupExactly | main/nvs_config.c:587-590 | the field an item finds is the first of its name, whatever the case; it finds none exactly if no field has its name |
| ConfigPost.PostExactly | main/nvs_config.c:574-741 | for any flash, tree and store: an item whose field means a value that can be written gets it, every other item and key keeps its entry, and an error is reported exactly if some field means nothing, a value could not be written or the commit failed |
| ConfigPost.AbsentKeeps | main/nvs_config.c:587-590 | an item without a field keeps its entry and causes no error |
| ConfigPost.PostChanges | main/nvs_config.c:574-741 | changing the settings: posting the values of any well-typed store, as such or as text and with no secret equal to the placeholder, onto any store leaves those values at the table's keys, everything else as it was, and no error |
| ConfigPost.OneField | main/nvs_config.c:574-741 | a tree with one field changes its item to what the field means and nothing else, leaves all for the placeholder, and for a field that means nothing leaves all and reports an error |
| Config.ReadPrinted | main/nvs_config.c:26-119 | a printed value, or the same as text, reads back as the value |
| Config.RoundTrip | main/nvs_config.c:502-741 | posting the printed configuration, numbers, booleans and octets perhaps as text, succeeds and changes nothing, secrets included, when keys equal but for case are both secrets |
| Config.PrintedRoundTrip | main/nvs_config.c:502-741 | the same for the printed tree itself |
| Config.RoundTripExactly | main/nvs_config.c:502-741 | for distinct keys: every well-typed store survives print and post if and only if any two keys equal but for case are both secrets |
| Config.CaseClash | main/nvs_config.c:587-587 | an example: the second of two numbers whose keys differ in case reads the first's field |
| ConfigTable.DeviceKeys | main/nvs_config.c:128-401 | the keys of the device's 52 items are distinct and no two are equal but for case |
| ConfigTable.DeviceRoundTrip | main/nvs_config.c:502-741 | on the device's table every well-typed store survives print and post |
| DeviceSettings.SecretsHidden | main/nvs_config.c:522-525 | two stores that differ only in the six passwords are printed alike |
| DeviceSettings.PortPosted | main/nvs_config.c:677-692 | the four ports: a number below 2^16, as such or as text, is stored in 16 bits, anything else is an error and changes nothing |
| DeviceSettings.SpeedPosted | main/nvs_config.c:694-709 | the baud rate: the same below 2^32 |
| DeviceSettings.NumberPosted | main/nvs_config.c:660-675 | the twelve small numbers: the same below 2^8 |
| DeviceSettings.SwitchPosted | main/nvs_config.c:643-658 | the eleven switches: only true, false, 1, 0 and their texts |
| DeviceSettings.AddressPosted | main/nvs_config.c:711-726 | the five addresses: only arrays of four octets |
| DeviceSettings.OctetsPosted | main/nvs_config.c:711-726 | any four octets a, b, c, d are stored as a + 2^8 b + 2^16 c + 2^24 d |
| DeviceSettings.TextPosted | main/nvs_config.c:593-614 | the thirteen texts: any string as it is, nothing else |
| DeviceSettings.SecretPosted | main/nvs_config.c:616-641 | the six passwords: any string as it is, but the placeholder leaves the password |

## Left out

- FanoutRefinesValueQueues: assumes that the set of non-NULL queues does not change during one publication; no lock enforces this while `main/main.c:86-89` starts the reader before the queues exist.
- FanoutRefinesValueQueues: atomic loads and stores are taken to be sequentially consistent.
- EveryAccount: `task_ntrip_server` clears its diagnostics (`main/ntrip_caster.c:527`) after its queue exists (`main/ntrip_caster.c:712`), so refusals before the task's first statement are forgotten.
- FromTheLineToARover: a rover's wire starts after the handshake reply, whose send result is ignored by `main/ntrip_caster.c:486-489`.
- FromTheLineToAnUplink: an uplink that gives up on a frame releases it with the rest unsent, so an ended connection may have cut its last frame.
- ExactlyOnce: consumers follow one another, as requests of one web server task do; two at once would swap the buffers back under the first.
- RoundTrip: flash writes and the commit succeed; what a failing write does is in PostExactly, and items stored before an error are not taken back, as in the source.
- CfgToJson: needs every item present with its type; `nvs_cfg_init` provides that, and what the code prints for a missing item is undefined.
- GetU32: a JSON number is a real, so NaN and infinities do not occur.
- ServeStep: the `goto error` exits of the bridge task, which end it, and the rejection of second clients are not modelled.
- DropCounterExactly: `dropped_bytes`, incremented next to the count and as unprotected, is not modelled.
- NTRIP requests and replies, base64, authentication and the source table: the handshake is one opaque step.
- UART driver, FreeRTOS, lwIP, NVS, cJSON and mbedTLS: queues are bounded sequences with atomic send and receive, sockets an adversary, flash a map, JSON a tree; waiting times are left out, except the back-off delays.
- The console's line assembler and filter with the pause after a clear (`main/gnss_uart.c:92-152`, `:172-228`), and the log's filter and pending line (`main/log.c:40-90`, `:156-199`): the rings start at the append call.
- Web handlers, Wi-Fi, time, reset button, core dumps, retry timer and stream statistics.
- Progress claims (that a connected peer is eventually served): the sockets here may block for ever.
