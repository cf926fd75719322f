# LUMEN in Dafny

LUMEN is a reliable-messaging protocol over UDP between a base station and lunar rovers: a
framed packet format with a CRC-8, a byte-stream parser that resynchronises after damage, an
asymmetric reliability layer (the base acknowledges and answers NAKs, the rover retransmits
on timeouts and asks for gaps), a session handshake, and a queue for messages written while
the base is out of reach. This project models those layers and proves what they guarantee
over every input and every run.

Code that changes state in place is modelled as classes with methods (`Reassembler`,
`ReliabilityManager`, `LumenProtocol`, `BaseStation`, `RoverNode`) and as methods with loops;
each method is proved equal to a function on values, and the theorems are about those
functions: single calls first, then whole runs. The clock is an integer number of
milliseconds passed to each handler; a run is any sequence of handler calls.

| file | content |
|---|---|
| `Folds.dfy`, `Pieces.dfy`, `Wire.dfy` | sequences, cuts, bytes and constants |
| `Crc8.dfy`, `Codec.dfy` | checksum, headers, packets |
| `FrameBuffer.dfy`, `Streams.dfy`, `NoisyStreams.dfy`, `Stalls.dfy` | the buffer loop on arbitrary bytes, on cut streams, on damaged streams, among garbage, and behind a false length |
| `Reliability.dfy`, `ReliabilityFacts.dfy` | the reliability manager and what its operations compute |
| `ManagerEvents.dfy`, `PacketFates.dfy`, `Transmissions.dfy`, `ManagerHistories.dfy` | its runs: fates, backoff, what its checks hand out, pruned tables |
| `Protocol.dfy`, `BaseEvents.dfy`, `RoverEvents.dfy`, `LayerCalls.dfy`, `LayerCopies.dfy` | the protocol layer, its runs, and all the data a rover's layer sends |
| `AckEpochs.dfy`, `AckExpiry.dfy`, `ArrivalOrder.dfy`, `NakAnswers.dfy`, `NakSpacing.dfy`, `GapRequests.dfy` | what the layer guarantees at either end |
| `Delivery.dfy`, `DeliveryOrder.dfy`, `StaleNumbers.dfy` | rover and base over a lossy, duplicating, reordering network |
| `Commands.dfy`, `BaseStations.dfy`, `SessionGate.dfy`, `RoverSessions.dfy` | sessions of either side, and what passes the base's |
| `Handshake.dfy`, `Recovery.dfy` | joint runs of base and rovers: agreement, and how sessions are made again after losses |
| `Rovers.dfy`, `StoredQueue.dfy`, `PostedSteps.dfy`, `RoverGate.dfy` | the rover's handlers, all they hand over, the queue, what a loss posts, and the fate of each message |
| `Lifecycle.dfy` | starting and stopping |
| `Silence.dfy` | sessions and layers together: a session that lost its flag |

Where code and documentation differ, the model follows the code:

- The repository's README promises in-order delivery. Nothing reorders packets: they are
  passed up in the order of arrival (`ArrivalOrder.PassedInArrivalOrder`), which is the order
  of sending exactly when no first copy is overtaken (`DeliveryOrder.InOrderIffNotOvertaken`);
  `DeliveryOrder.OutOfOrder` is a run in which two packets come out swapped.
- An acknowledgement proves delivery only if the packet's number was fresh when issued;
  `Delivery.FreshnessIsExact` gives the exact condition. The code does not ensure it: the
  rover restarts its numbers at 0 after losing the base, with old copies still in flight, and
  `StaleNumbers.StaleIsReached` is a run of its handlers that gets there.
- A packet sent under a number that is still taken is not tracked, and so never sent again,
  abandoned or reported (`LayerCopies.LifeIffFree`, `LayerCopies.TakenIsReached`).
- A cut inside a header can lose a frame, because the type byte of DATA equals the start
  marker (`Streams.DataHeaderCut`); `Streams.IncrementalParsing` says exactly which cuts are
  harmless.
- `is_valid` checks its own fresh encoding and accepts every packet (`Codec.IsValidAlways`).
- A packet whose payload has 65536 bytes or more does not survive its own encoding
  (`Codec.RoundTrip`).
- A NAK is answered with the first packet ever sent under the number
  (`NakAnswers.NakResendsFirst`), because an existing entry is never overwritten;
  `NakAnswers.StaleIsReached` is a run of 257 commands after which the answer is stale.
- A SESSION_INIT from another rover silences the base's acknowledgements while the session
  stays active (`BaseStations.DisturbedIsReached`, `BaseStations.DisturbedStays`), so the
  connected rover gives up its packets while its probes are answered as if all were well
  (`Silence.SilenceIsReached`, `Silence.SilenceAbandons`, `Silence.ProbesAreReassured`).
- A handshake does not survive the loss of its last message: the base, active, no longer
  answers the rover's CONFIRM, and the rover in its second phase sends nothing else
  (`Recovery.StrandedIsReached`, `Recovery.StrandedStays`); `Recovery.RetryCompletesIff` says
  exactly when a retry is of use, and `Recovery.FreedExactly` what frees such a rover.
- An INIT that a rover sent from an endpoint it has left ends its session at the new one
  (`Recovery.StaysJoinedExactly`).
- When handshake retries run out, in either phase, the rover stays where it is
  (`RoverSessions.ExhaustionIsReached`, `RoverSessions.ExhaustedWaits`).

## Model

| member | source | states |
|---|---|---|
| `Crc8.CalculateCrc8` | src/common/lumen_header.cpp:89-103 | the nested loop computes the fold of the byte update over the data |
| `Crc8.CrcFeeds` | src/common/lumen_header.cpp:92-101 | the bytewise loop equals a bit-serial register fed most significant bit first |
| `Crc8.CrcIsRemainder` | src/common/lumen_header.cpp:87-103 | a byte is the checksum if and only if message and byte together are a polynomial multiple of x^8+x^2+x+1 over GF(2) |
| `Crc8.CrcLinear` | src/common/lumen_header.cpp:89-103 | the checksum is XOR-linear on inputs of equal length |
| `Crc8.CrcParity` | src/common/lumen_header.cpp:89-103 | the checksum has odd weight exactly when the message has |
| `Crc8.CrcBurst` | src/common/lumen_header.cpp:89-103 | a nonzero pattern within 8 consecutive bits of an otherwise zero message has a nonzero checksum, whatever the length |
| `Crc8.CrcDetects` | src/common/lumen_header.cpp:89-103 | a codeword hit by an odd number of flips or such a burst is no codeword |
| `Codec.HeaderToBytes` | src/common/lumen_header.cpp:66-85 | filling the vector by index gives the ten big-endian header bytes |
| `Codec.HeaderRoundTrip` | src/common/lumen_header.cpp:17-85 | an encoded header parses back, whatever follows it |
| `Codec.HeaderSound` | src/common/lumen_header.cpp:17-85 | a header that parses is the one its first ten bytes encode |
| `Codec.MakePacket` | src/common/lumen_packet.cpp:11-15 | the constructor makes the length field the payload size modulo 65536 |
| `Codec.PacketToBytes` | src/common/lumen_packet.cpp:80-114 | the appends give header, payload, checksum of both, and end marker |
| `Codec.HeaderFormat` | src/common/lumen_header.cpp:66-85 | the ten header bytes: 0x02, the type 0 to 5, the priority 0 to 2, the number, and timestamp and length with their most significant bytes first |
| `Codec.PacketFormat` | src/common/lumen_packet.cpp:80-114 | a packet on the wire is twelve bytes longer than its payload: header, payload, checksum of both, 0x03 |
| `Codec.RoundTrip` | src/common/lumen_packet.cpp:11-95 | encoding followed by any suffix parses back to the packet if and only if the payload is under 65536 bytes |
| `Codec.ParseSound` | src/common/lumen_packet.cpp:19-101 | whenever parsing succeeds, re-encoding gives exactly the first `total_size` bytes of the input |
| `Codec.IsValidAlways` | src/common/lumen_packet.cpp:116-137 | `is_valid` accepts every packet |
| `Codec.DamageRefused` | src/common/lumen_packet.cpp:19-71 | an accepted frame hit by an odd number of flips or one burst is refused if its length field is intact |
| `Codec.DamageKeepsSize` | src/common/lumen_packet.cpp:27-35 | damage outside marker, type, priority and length leaves the declared size |
| `FrameBuffer.TurnConserves` | src/common/lumen_protocol.cpp:311-389 | a turn that does not stop the loop splits off a segment and strictly shrinks the buffer |
| `FrameBuffer.Advance` | src/common/lumen_protocol.cpp:313-384 | one turn of the loop body, with its search for the next marker, takes the specified branch |
| `FrameBuffer.Drain` | src/common/lumen_protocol.cpp:311-389 | the loop delivers the packets, and leaves the residue, of the recursive specification |
| `FrameBuffer.ProcessConserves` | src/common/lumen_protocol.cpp:311-396 | the input is the concatenation of delivered encodings, named discarded segments and the residue |
| `FrameBuffer.ProcessExplained` | src/common/lumen_protocol.cpp:311-396 | at the place where each segment is consumed the input begins with what justifies it: an intact frame if delivered; a complete frame that fails its checks, no parsable header, or an incomplete frame of over 4096 bytes if dropped |
| `FrameBuffer.IntactIsDelivered` | src/common/lumen_protocol.cpp:311-389 | where the input begins with an intact frame, nothing but its delivery is justified |
| `FrameBuffer.ProcessQuiesces` | src/common/lumen_protocol.cpp:311-396 | the residue is empty, an incomplete frame of at most 4096 bytes with a parsable header, or at most 2048 bytes without a marker after index 0 |
| `FrameBuffer.QuiescentIff` | src/common/lumen_protocol.cpp:311-396 | exactly those residues are left unchanged, delivering nothing, when processed again |
| `FrameBuffer.Reassembler.ProcessFrameBuffer` | src/common/lumen_protocol.cpp:300-397 | the endpoint's buffer becomes the residue, the others stay, and the packets come out in order |
| `FrameBuffer.Reassembler.HandleUdpData` | src/common/lumen_protocol.cpp:187-207 | only datagrams beginning with the start marker reach the sender's buffer, and only that buffer changes |
| `Streams.WholeStream` | src/common/lumen_protocol.cpp:300-397 | a concatenation of encoded frames is delivered completely, in order, with nothing left |
| `Streams.IncrementalParsing` | src/common/lumen_protocol.cpp:199-205 | frames cut anywhere and fed piece by piece are all delivered if and only if every cut is safe, and then exactly as in one piece with nothing left |
| `Streams.DatagramParsing` | src/common/lumen_protocol.cpp:187-207 | the same for whole datagrams: each must also begin with a start marker |
| `Streams.DataHeaderCut` | src/common/lumen_protocol.cpp:337-354 | a cut after 2 to 9 bytes of a DATA frame is never safe |
| `Streams.DamagedStreamRecovery` | src/common/lumen_protocol.cpp:311-389 | if any subset of a stream of frames is hit by detectable errors outside marker, type, priority and length, exactly the other packets are delivered in order and the buffer ends empty |
| `NoisyStreams.NoisyStreamRecovery` | src/common/lumen_protocol.cpp:337-365 | with marker-free garbage before any frame and behind the last, exactly the frames not hit are delivered in order, each stretch of garbage is dropped whole, and only the last one may stay |
| `NoisyStreams.LostMarkerIsNoise` | src/common/lumen_protocol.cpp:337-354 | a frame that lost its marker and holds no other is such garbage |
| `Stalls.RaisedLengthWaits` | src/common/lumen_protocol.cpp:318-336 | a frame whose length field was raised is kept, waiting |
| `Stalls.Completed` | src/common/lumen_protocol.cpp:318-332 | once the declared size is reached, exactly that many bytes are consumed first |
| `Stalls.StallIsBounded` | src/common/lumen_protocol.cpp:333-396 | while it is not reached, of intact frames arriving one per datagram those up to the one that takes the buffer past 4096 bytes are lost, and all the others delivered in order with nothing left |
| `Reliability.Sorted` | src/common/reliability_manager.cpp:218-218 | a map is traversed over exactly its keys |
| `Reliability.SortedAscends` | src/common/reliability_manager.cpp:218-218 | and in ascending order |
| `Reliability.Prune` | src/common/reliability_manager.cpp:363-386 | erasing while iterating keeps exactly the entries no older than the limit |
| `Reliability.PruneAll` | src/common/reliability_manager.cpp:361-372 | and does so for every sender |
| `Reliability.Visit` | src/common/reliability_manager.cpp:219-294 | one tracked packet is kept, bumped and resent, or given up and reported |
| `Reliability.Sweep` | src/common/reliability_manager.cpp:213-297 | the erase-while-iterating loop refines the one-pass map specification |
| `Reliability.ScanWindow` | src/common/reliability_manager.cpp:173-187 | walking back over the window lists its unrecorded numbers |
| `Reliability.ReliabilityManager.AddSendPacket` | src/common/reliability_manager.cpp:78-90 | a free number is tracked, an existing entry is never overwritten |
| `Reliability.ReliabilityManager.ProcessAckFor` | src/common/reliability_manager.cpp:92-104 | a running rover erases exactly that entry, a base nothing |
| `Reliability.ReliabilityManager.ProcessNakFor` | src/common/reliability_manager.cpp:106-139 | a running base answers with the tracked packet and its recipient |
| `Reliability.ReliabilityManager.RecordReceivedSequence` | src/common/reliability_manager.cpp:141-152 | the time of arrival is recorded per sender and number |
| `Reliability.ReliabilityManager.GetMissingSequences` | src/common/reliability_manager.cpp:154-188 | a rover gets the unrecorded numbers of the window, a base none |
| `Reliability.ReliabilityManager.RecordNakSent` | src/common/reliability_manager.cpp:205-208 | the time of the NAK is recorded |
| `Reliability.ReliabilityManager.RecordAckedSequence` | src/common/reliability_manager.cpp:419-427 | a base adds the number to the endpoint's set, a rover nothing |
| `Reliability.ReliabilityManager.GetPacketsToRetransmit` | src/common/reliability_manager.cpp:210-298 | the table, the resent packets and the notifications are those of the one-pass check; a base changes nothing |
| `Reliability.ReliabilityManager.CleanupOldEntries` | src/common/reliability_manager.cpp:356-398 | old numbers and NAKs go, and the acknowledged set if its epoch has ended |
| `Reliability.ReliabilityManager.ResetState` | src/common/reliability_manager.cpp:446-457 | all four tables are emptied |
| `Reliability.ReliabilityManager.StopManager` | src/common/reliability_manager.cpp:64-76 | the manager stops and keeps its tables |
| `Reliability.ReliabilityManager.StartManager` | src/common/reliability_manager.cpp:29-62 | a stopped manager starts with empty tables after one cleanup, a running one is left alone |
| `ReliabilityFacts.MissingExact` | src/common/reliability_manager.cpp:154-188 | the reported numbers are exactly the unrecorded ones at distance 1 to 16 mod 256 before the largest recorded one, nearest first, each once |
| `ReliabilityFacts.ResendExact` | src/common/reliability_manager.cpp:218-297 | a check returns exactly the expired packets under the retry limit, in ascending order of number, each with its recipient |
| `ReliabilityFacts.NotifyExact` | src/common/reliability_manager.cpp:234-276 | a check notifies once for each packet it gives up at its third timeout that was bound for port 9000, and for no other |
| `PacketFates.EveryPacketHasOneFate` | src/common/reliability_manager.cpp:78-104 | in every run each packet ever tracked is live, acknowledged, abandoned or cleared; live packets and entries correspond one to one; retry counts stay at most 2 |
| `PacketFates.BackoffLowerBounds` | src/common/reliability_manager.cpp:210-298 | in every run the clock of a packet is restarted at most twice, the k-th time later than 5000*(2^k-1) ms after tracking, and it is abandoned later than 35000 ms after |
| `PacketFates.UpperBoundsFrom` | src/common/reliability_manager.cpp:312-354 | in every run from any ledger in order, empty or in mid-traffic, if the last check is never more than D ms old, a packet is abandoned within 35000+3D ms and none is tracked longer |
| `PacketFates.BackoffUpperBounds` | src/common/reliability_manager.cpp:312-354 | the same from the start |
| `Transmissions.OutputsAreFates` | src/common/reliability_manager.cpp:218-297 | in every run the packets the checks hand out are, one by one, the repeats of the packets tracked, at their times and to their recipients, each once and all; the notifications given are those of the packets abandoned on the way to port 9000, each once and all |
| `Transmissions.CopiesKeepBackoff` | src/common/reliability_manager.cpp:228-283 | each packet handed out is at most the second repeat of its packet, the k-th later than 5000*(2^k-1) ms after tracking |
| `ManagerHistories.NakCacheAgrees` | src/common/reliability_manager.cpp:190-208 | however cleanups interleave, the table holds exactly the NAKs since the last reset that were no older than 2000 ms at the last cleanup, and answers as if all were remembered |
| `ManagerHistories.MissingByRecord` | src/common/reliability_manager.cpp:154-188 | in every run a number is reported missing for a sender if and only if it is one of the sixteen before the largest number retained and is not retained: since the last reset not heard, or last heard more than 30000 ms before the last cleanup |
| `ManagerHistories.HeardIsNotMissing` | src/common/reliability_manager.cpp:359-373 | in every run a number heard from a sender in the last 30000 ms, since the last reset, is not reported missing for that sender |
| `Protocol.ProcessAllSnoc` | src/common/lumen_protocol.cpp:387-387 | processing packets one by one composes |
| `Protocol.LumenProtocol.SendMessageTo` | src/common/lumen_protocol.cpp:107-151 | one number is spent, the packet goes to the recipient or the base, and data is tracked; nothing happens when stopped |
| `Protocol.LumenProtocol.SendAckFor` | src/common/lumen_protocol.cpp:577-603 | a base records the number and sends an ACK for it under a number of its own |
| `Protocol.LumenProtocol.SendNakFor` | src/common/lumen_protocol.cpp:606-647 | a rover sends a NAK for the number to the base under a number of its own |
| `Protocol.LumenProtocol.CheckSequenceGaps` | src/common/lumen_protocol.cpp:510-531 | the loop asks for the missing numbers not recently asked for, at most three, recording each |
| `Protocol.LumenProtocol.ProcessCompletePacket` | src/common/lumen_protocol.cpp:399-507 | the branches on type, role, session flag and duplicate give the specified state, replies and forward |
| `Protocol.LumenProtocol.ProcessPackets` | src/common/lumen_protocol.cpp:311-389 | the packets of a buffer are processed in order |
| `Protocol.LumenProtocol.HandleUdpData` | src/common/lumen_protocol.cpp:187-207 | a datagram has the effect of the packets it completes, leaves the buffer's residue, and touches no other sender's buffer |
| `Protocol.LumenProtocol.StartProtocol` | src/common/lumen_protocol.cpp:72-93 | a stopped layer starts with empty buffers and a started manager |
| `Protocol.LumenProtocol.StopProtocol` | src/common/lumen_protocol.cpp:95-105 | a running layer and its manager stop |
| `Protocol.LumenProtocol.ResetSequenceNumber` | src/common/lumen_protocol.cpp:153-165 | the number counter, the manager's tables and the buffers are cleared |
| `RoverEvents.ArrivalFrame` | src/common/lumen_protocol.cpp:399-507 | a packet at a rover erases an entry only by an ACK, makes it send nothing but NAKs, those only on every fifth data packet, and is passed up exactly if it is data |
| `LayerCalls.LayerDrivesManager` | src/common/lumen_protocol.cpp:399-531 | each event of a rover's layer moves the manager by the calls it makes on it |
| `LayerCalls.LayerRunIsManagerRun` | src/common/lumen_protocol.cpp:107-165 | every run of the layer is a run of the manager |
| `LayerCalls.LayerKeepsSchedule` | src/common/reliability_manager.cpp:210-298 | in every run of the layer the record of fates matches the layer's own table, and clocks are restarted and packets abandoned no earlier than the schedule says |
| `LayerCalls.LayerKeepsDeadlines` | src/common/reliability_manager.cpp:312-354 | in every run of the layer, from an empty table or in mid-traffic, with checks never more than D ms apart, packets are abandoned within 35000+3D ms and none is tracked longer |
| `LayerCalls.LayerNakCacheAgrees` | src/common/lumen_protocol.cpp:518-523 | in every run of the layer the pruned NAK table answers as the full record |
| `LayerCalls.LayerMissingByRecord` | src/common/reliability_manager.cpp:356-373 | in every run of the layer the numbers reported missing are exactly those the record of arrivals and cleanups says |
| `LayerCalls.LayerHeardIsNotMissing` | src/common/lumen_protocol.cpp:510-512 | in every run of the layer a number heard in the last 30000 ms since the last reset is not reported missing |
| `LayerCopies.WireIsExact` | src/common/lumen_protocol.cpp:107-151 | in every run all the data a rover's layer puts on the wire is, packet by packet: the first copy of each packet tracked, once; each repeat of it, once, at its time and to its recipient, at most two, the k-th later than 5000*(2^k-1) ms after the first; and one copy of each packet sent under a taken number |
| `LayerCopies.LifeIffFree` | src/common/reliability_manager.cpp:86-89 | in every run a data packet sent enters the table if and only if its number is free, and otherwise leaves it as it is |
| `LayerCopies.TakenIsReached` | src/common/reliability_manager.cpp:86-89 | after 256 packets without an acknowledgement the next number is taken |
| `AckEpochs.AckMatchesOneForward` | src/common/lumen_protocol.cpp:445-506 | in every run each ACK has exactly one active-session forward of its endpoint and number in its epoch, and no forward of that pair, active or not, follows there |
| `AckEpochs.ActiveForwardsSpread` | src/common/reliability_manager.cpp:389-395 | in every run without resets, n >= 3 active forwards of one pair span more than (n-2)*10000 ms |
| `AckExpiry.EmptiedInTime` | src/common/reliability_manager.cpp:389-395 | in every run, resets and session changes included, with the last cleanup at most D ms old the acknowledged set was empty within the last 10000+D ms |
| `AckExpiry.ForgottenInTime` | src/common/lumen_protocol.cpp:443-506 | so a data packet that arrives more than 10000+D ms after the last ACK of its number to its sender, or without one, is passed up |
| `ArrivalOrder.PassedInArrivalOrder` | src/common/lumen_protocol.cpp:443-506 | in every run, whatever the senders, cleanups, resets and session changes, what is passed up is the data that arrived, in the order of arrival, without copies of a number that had arrived from the same sender in the same epoch and an active session |
| `DeliveryOrder.InOrderIffNotOvertaken` | README.md:13-13 | in every run of rover, base and network, only packets sent are passed up, and in the order of sending if and only if no first copy arrives after that of a packet sent later |
| `DeliveryOrder.OutOfOrder` | README.md:13-13 | two packets sent in order, the second of which arrives first, are passed up swapped |
| `NakAnswers.NakResendsFirst` | src/common/reliability_manager.cpp:78-139 | in every run a NAK for s resends the first packet sent under s since the last reset, to its recipient, or nothing; every tracked key is its packet's own number |
| `NakAnswers.NumbersInOrder` | src/common/lumen_protocol.cpp:107-151 | in every run a base issues its numbers in order modulo 256, to what it is told to send and to acknowledgements alike; what it is told to send goes out once, as told, to the recipient named, and without one the number alone is spent |
| `NakAnswers.FirstNumbersAnswered` | src/common/lumen_protocol.cpp:116-145 | for the first 256 numbers a NAK for s resends exactly the packet sent under s, and nothing for a number spent on an ACK or not issued |
| `NakAnswers.LaterPacketShadowed` | src/common/reliability_manager.cpp:86-89 | a later packet under a number already tracked is the one resent if and only if it is the same |
| `NakAnswers.StaleIsReached` | src/common/reliability_manager.cpp:86-89 | after 257 commands a NAK for number 0 is answered with the first, not the last |
| `NakSpacing.NaksAreSpaced` | src/common/lumen_protocol.cpp:510-531 | in every run two NAKs for one number between resets are at least 1000 ms apart, and no event sends more than three |
| `GapRequests.GapsAreAskedFor` | src/common/lumen_protocol.cpp:480-531 | in every run, on every fifth data packet by a count modulo 256, a rover sends exactly one NAK to the base, under consecutive numbers, for each of the first three of the numbers it wants: those among the sixteen before the largest received that were not received nor, by the record of all NAKs sent, asked for in the last 1000 ms, nearest first; any other packet makes it send none |
| `GapRequests.TableIsRecord` | src/common/reliability_manager.cpp:190-208 | the debounce table answers as the record of the NAKs on the wire does |
| `Delivery.AcknowledgedWasDelivered` | src/common/lumen_protocol.cpp:443-506 | whatever is lost, duplicated or reordered, if numbers are issued only when fresh, every packet the rover erases on an ACK the base had forwarded, that very packet |
| `Delivery.ErasedWasForwarded` | src/common/reliability_manager.cpp:92-104 | the same at a single ACK, from the invariant |
| `Delivery.StaleIsUnsafe` | src/common/lumen_protocol.cpp:107-165 | issuing a stale number has a continuation in which an undelivered packet is acknowledged |
| `Delivery.FreshnessIsExact` | src/common/lumen_protocol.cpp:107-165 | in every reachable state, sending a new packet keeps every continuation safe if and only if its number is fresh |
| `StaleNumbers.StaleIsReached` | src/rover/rover.cpp:1010-1026 | a packet sent in an active session, three expired checks, the report of the base and the posted reset reach a stale number, from which an undelivered packet can be acknowledged |
| `BaseStations.BaseStation.Send` | src/base/base_station.cpp:439-492 | commands go to the recorded endpoint while active, or to accept a handshake, and nowhere else |
| `BaseStations.BaseStation.HandleSessionInit` | src/base/base_station.cpp:300-394 | the branches on state, id and endpoint give the specified state, flag and reply, and leave the rest of the protocol layer |
| `BaseStations.BaseStation.HandleSessionConfirm` | src/base/base_station.cpp:396-436 | only the expected rover in the expected phase makes the session active and sets the flag |
| `BaseStations.BaseStation.RouteMessage` | src/base/base_station.cpp:111-219 | session commands are handled, and other messages reach the application exactly from the connected rover's id and endpoint while active |
| `BaseStations.BaseStation.Start` | src/base/base_station.cpp:37-61 | the protocol layer starts with its flag clear |
| `BaseStations.BaseStation.Stop` | src/base/base_station.cpp:63-84 | the session is cleared, the flag too, and the protocol layer stops |
| `BaseStations.SessionDiscipline` | src/base/base_station.cpp:300-436 | in every run, stops included: HANDSHAKE_INIT is never reached, the last branch of the INIT handler is never taken, the flag implies ACTIVE, nothing is recorded while INACTIVE, and ACTIVE is entered only by a CONFIRM matching the recorded id and endpoint |
| `BaseStations.AnswersExactly` | src/base/base_station.cpp:300-436 | in every run exactly which commands from the network are answered, with what and to whom, and that the others change nothing but the flag |
| `BaseStations.RecordedOnce` | src/base/base_station.cpp:366-370 | in every run without stops the connected rover is recorded at most once |
| `BaseStations.FlagIsExact` | src/base/base_station.cpp:317-383 | in every run the flag is set if and only if the session is active and undisturbed since it became so |
| `BaseStations.FlagAgrees` | src/base/base_station.cpp:404-426 | flag and ACTIVE agree in every run without another rover's INIT, and without a second start, while active |
| `BaseStations.DisturbedStays` | src/base/base_station.cpp:332-337 | a disturbed session stays active without its flag until a stop or a change of endpoint |
| `BaseStations.DisturbedIsReached` | src/base/base_station.cpp:332-383 | INIT and CONFIRM from one rover and INIT from another reach such a session |
| `SessionGate.GateIsExact` | src/base/base_station.cpp:111-219 | in every run every message that reached the application came from the id and endpoint whose CONFIRM had made the session active, and the next one reaches it if and only if it is no session command and comes from there; none does in any other state |
| `SessionGate.SaidIsSent` | src/base/base_station.cpp:439-492 | in every run whatever the application says in an active session is sent, once, to that endpoint; in any other state only SESSION_ACCEPT is sent, while a CONFIRM is awaited |
| `SessionGate.ActiveRoverIsHeard` | src/base/base_station.cpp:129-148 | in every joint run, while a rover is active, exactly its own messages other than session commands reach the base's application, and all the base's application says is sent to that rover and to no one else |
| `RoverSessions.ActiveExactly` | src/rover/rover.cpp:820-848 | a session is active after an event exactly if SESSION_ESTABLISHED arrived, or it was active and neither was the base lost nor the rover stopped; it is disconnected exactly after the loss of an active base, until a start, an answer or a stop |
| `RoverSessions.SendsExactly` | src/rover/rover.cpp:707-782 | exactly which event sends which command in which state: SESSION_INIT by a start, a probe or a retry in the first phase, SESSION_CONFIRM by an ACCEPT or a retry in the second, others only by the application |
| `RoverSessions.PhasesExactly` | src/rover/rover.cpp:1118-1147 | the two phases of a handshake are entered and left exactly so |
| `RoverSessions.RetriesBounded` | src/rover/rover.cpp:745-782 | within one handshake the timer sends a command again exactly as often as it counts, at most five times in both phases together |
| `RoverSessions.ExhaustedMovesExactly` | src/rover/rover.cpp:752-780 | a handshake whose retries are spent is moved by exactly SESSION_ESTABLISHED, SESSION_ACCEPT in the first phase, and a stop |
| `RoverSessions.ExhaustedWaits` | src/rover/rover.cpp:774-780 | in no run without those events does it move or send a command of its own, in either phase |
| `RoverSessions.ExhaustionIsReached` | src/rover/rover.cpp:707-782 | five ticks after the start reach it in either phase |
| `Handshake.Agreement` | src/base/base_station.cpp:300-436 | in every joint run with any number of rovers, which may stop and start again, an active rover has the base active with its id and endpoint, so at most one is active |
| `Handshake.RouteKeeps` | src/base/base_station.cpp:300-436 | for messages of honest rovers an active session stays, and SESSION_ESTABLISHED is sent only into one |
| `Handshake.HandshakeCompletes` | src/rover/rover.cpp:707-743 | every rover can get there: four messages make it and the base active and set the flag |
| `Recovery.OpenInit` | src/base/base_station.cpp:317-388 | an INIT at a base that is free or records that rover: at the endpoint of the active session it is answered by SESSION_ESTABLISHED; anywhere else the base moves to that endpoint, clears the flag, and accepts |
| `Recovery.MovedRoverReconnects` | src/base/base_station.cpp:338-370 | after any joint run, a rover that is stopped and starts at another endpoint makes itself and the base active there, with the flag set, whatever else is lost |
| `Recovery.StaysJoinedExactly` | src/base/base_station.cpp:338-388 | base and rover stay active together through an event unless it is the loss of the base, a stop, or an INIT of that rover from another endpoint, be it an old one |
| `Recovery.StartCompletes` | src/rover/rover.cpp:707-743 | a start from INACTIVE or DISCONNECTED leads to a session, whatever else is lost, if the base is free or records that rover |
| `Recovery.ProbeCompletes` | src/rover/rover.cpp:1046-1078 | so does a probe of a disconnected rover |
| `Recovery.LossIsRepaired` | src/rover/rover.cpp:996-1078 | after any joint run, an active rover that loses the base is active with it again after one probe |
| `Recovery.UsefulRetryCompletes` | src/rover/rover.cpp:758-773 | a tick of the handshake timer in either phase leads to a session, whatever else is lost, if the base is free or records that rover, or awaits its CONFIRM |
| `Recovery.RetryCompletesIff` | src/rover/rover.cpp:745-782 | after any joint run, with all else lost, what a tick of the handshake timer and its replies send can make rover and base active if and only if, in the first phase, the base is free or records that rover, and in the second, the base still awaits the CONFIRM |
| `Recovery.RefusedStays` | src/base/base_station.cpp:332-337 | a rover refused by a base in session never becomes active, in any run |
| `Recovery.FreedExactly` | src/base/base_station.cpp:404-413 | a rover that confirmed, whose base is active but whose word of that is lost, is freed by exactly a stop or an application that itself sends the command needed |
| `Recovery.StrandedStays` | src/base/base_station.cpp:404-413 | until then it waits in every run, for all its retries, probes and new starts |
| `Recovery.StrandedIsReached` | src/base/base_station.cpp:396-436 | a handshake whose last message is lost reaches that |
| `Rovers.RoverNode.SendCommandToBase` | src/rover/rover.cpp:950-993 | while disconnected only SESSION_INIT is sent |
| `Rovers.RoverNode.InitiateHandshake` | src/rover/rover.cpp:707-743 | starts only from INACTIVE or DISCONNECTED |
| `Rovers.RoverNode.HandleHandshakeTimer` | src/rover/rover.cpp:745-782 | retries the pending command five times, after which nothing changes |
| `Rovers.RoverNode.HandleProbeTimer` | src/rover/rover.cpp:1046-1078 | probes only while disconnected |
| `Rovers.RoverNode.HandleSessionAccept` | src/rover/rover.cpp:1118-1177 | confirms from HANDSHAKE_INIT or DISCONNECTED only |
| `Rovers.RoverNode.HandleSessionEstablished` | src/rover/rover.cpp:820-859 | becomes active from any other state, drains the queue, then sends status and telemetry |
| `Rovers.RoverNode.RouteMessage` | src/rover/rover.cpp:520-589 | the base's commands count only from its endpoint and another sender id; low power is set; other commands reach the application except discovery |
| `Rovers.RoverNode.SendStoredPackets` | src/rover/rover.cpp:784-818 | the loop hands the queue over front first and empties it |
| `Rovers.RoverNode.SendReport` | src/rover/rover.cpp:187-235 | status and telemetry are stored while disconnected, sent while active, dropped otherwise |
| `Rovers.RoverNode.SendMessage` | src/rover/rover.cpp:238-301 | messages for the base are treated so, others sent at once |
| `Rovers.RoverNode.HandleBaseDisconnect` | src/rover/rover.cpp:996-1043 | acts only on an active session, and posts one sequence reset and one probe |
| `Rovers.RoverNode.HandlePacketTimeout` | src/rover/rover.cpp:1081-1116 | only a timeout towards the base counts |
| `Rovers.RoverNode.RunPostedReset` | src/rover/rover.cpp:1018-1026 | a posted reset runs once |
| `Rovers.RoverNode.RunPostedProbe` | src/rover/rover.cpp:1028-1042 | a posted probe runs once, and probes only while disconnected |
| `Rovers.RoverNode.Stop` | src/rover/rover.cpp:102-135 | session and queue are cleared and the protocol layer stops |
| `PostedSteps.LossesArePosted` | src/rover/rover.cpp:1010-1042 | in every run without a stop exactly one reset and one probe is posted for each loss of the base, and only a loss disconnects |
| `PostedSteps.LossesAreAnswered` | src/rover/rover.cpp:1018-1078 | in every run a posted probe sends one SESSION_INIT to the base if the rover is still disconnected, a posted reset restarts the numbers and empties the tables, and neither does anything unless a loss posted it |
| `RoverGate.BaseMessageFate` | src/rover/rover.cpp:187-301 | in every run a report or a message for the base is dropped if the base last commanded low power and it is not of high priority; else it is stored while disconnected, sent while active, and dropped in every other state |
| `RoverGate.OtherMessageFate` | src/rover/rover.cpp:238-301 | in every run a message to anyone else is sent at once in whatever state, unless the base last commanded low power, then it is dropped |
| `RoverGate.CommandFate` | src/rover/rover.cpp:950-993 | in every run a command is sent to the base in every state, while disconnected only if it is SESSION_INIT |
| `RoverGate.CommandsUp` | src/rover/rover.cpp:520-600 | in every run exactly the commands of other senders that are neither the base's to give nor for discovery reach the application |
| `Lifecycle.StopStops` | src/common/lumen_protocol.cpp:95-105 | layer and manager stop together and keep everything else |
| `Lifecycle.BaseStartsFresh` | src/common/lumen_protocol.cpp:72-93 | a base's layer that starts, whatever it was before, is one from which the theorems about its runs begin |
| `Lifecycle.RoverStartsFresh` | src/common/lumen_protocol.cpp:72-93 | a rover's layer likewise |
| `Lifecycle.StoppedRoverIsInert` | src/common/lumen_protocol.cpp:107-114 | in no run without arrivals and resets does a stopped rover's layer change or send anything |
| `Lifecycle.StoppedBaseIsInert` | src/common/lumen_protocol.cpp:107-114 | nor a stopped base's |
| `Lifecycle.FirstEpochIsWhole` | src/common/reliability_manager.cpp:29-62 | a new layer started later than 10000 ms on the clock forgets no acknowledgement in its first 10000 ms without a reset |
| `Lifecycle.RestartForgets` | src/rover/rover.cpp:102-135 | a rover stopped and started again keeps nothing of its session and its queue, and its runs begin as those of a new one |
| `StoredQueue.RefinesSession` | src/rover/rover.cpp:707-859 | the whole rover moves its session and sends commands as the session alone does |
| `StoredQueue.DrainExact` | src/rover/rover.cpp:784-818 | draining sends exactly the queue, in order, under consecutive numbers mod 256 |
| `StoredQueue.EventHandsOver` | src/rover/rover.cpp:155-301 | all the packets a handler sends are the messages it should hand over: none for a message stored, one for an own message or command, and on activation the queue, then status and telemetry, under consecutive numbers mod 256 |
| `StoredQueue.StoredExactlyOnce` | src/rover/rover.cpp:155-173 | in every run without a stop, over everything the handlers ever handed over, the messages stored appear exactly once each and in the order stored, up to those still in the queue; none waits while the session is active |
| `StoredQueue.HandedExactly` | src/rover/rover.cpp:784-859 | the same per event in every reachable state: an event that stores sends nothing, any other but activation at most one packet |
| `Silence.ForeignInitSilences` | src/base/base_station.cpp:332-383 | one INIT from another rover clears the layer's flag under an active session, whatever is tracked or in flight |
| `Silence.SilenceAbandons` | src/common/lumen_protocol.cpp:445-478 | from there, in mid-traffic, until a stop or a change of endpoint, in every run: no new ACK is sent to the rover, only packets whose numbers are borne by ACKs already in flight can still be acknowledged, and every other one is abandoned within 35000+3D ms or cleared by a reset |
| `Silence.ProbesAreReassured` | src/base/base_station.cpp:317-325 | all that time a probe is answered by SESSION_ESTABLISHED with the flag clear |
| `Silence.SilenceIsReached` | src/base/base_station.cpp:300-436 | a run from an initial world reaches a silenced session with a packet tracked and its ACK in flight |

## Left out

- Sockets, the subnet scan and the UDP client and server: the network is a set of packets or messages that may be lost, duplicated and reordered.
- JSON, message classes and the message manager: a payload is an opaque byte sequence, its text a parameter; raw-JSON and plain-text datagrams are not modelled.
- Real timers, threads and mutexes: a handler is one atomic step that may run at any time its events allow; the posted sequence reset is a pending step.
- Clock resolution: times are whole milliseconds, while the code truncates nanosecond differences to milliseconds.
- The packet timestamp: an arbitrary parameter of each send.
- The counter of consecutive timeouts: it is written and never read.
- Missing callbacks and null pointers: callbacks are taken to be set and layers to exist.
- Movement, coordinates, discovery announcements, status levels and the two main programs: no property beyond their branches.
- Base-station callbacks for status and telemetry: only the gate before them is modelled.
- Restarting the protocol layer within a run: runs of the layer begin after its start and include resets, and `Lifecycle` shows that every start begins such a run; runs of the manager alone include starts and stops.
- Stopping a rover within a run of its queue: a stop drops the queue, and the runs of `StoredQueue` contain none (`Lifecycle.RestartForgets` begins the next); those of `Handshake` do.
- Protocol.LumenProtocol.HandleUdpData: the reaction of the layer above to a forwarded packet is not interleaved with later packets of the same datagram; the run theorems take each packet as an event of its own and so cover that order.
- Protocol.LumenProtocol.ProcessCompletePacket: the gap-check counter belongs to the object, while in the code all objects of a process share it.
- Delivery.AcknowledgedWasDelivered: packets are lost or intact, since damaged ones are refused by the codec except for errors its checksum cannot see; other peers send no ACKs.
- Handshake.Agreement: each rover has one endpoint of its own and the base is not stopped, since a base that stops forgets a rover that still counts itself active, and one that hears an INIT from another endpoint moves there; `Recovery` treats changes of endpoint.
