# Verified model of qperf's QUIC transport and request replay

qperf measures web page loads over a modified copy of quic-go and replays recorded page loads with a
Python simulator. This project models the parts whose correctness is least obvious and proves what they
promise, over all inputs and all runs.

- **Streams.** `FrameSorter`, `SorterExactness`, `SorterDelivery`: the reassembly of a stream from frames
  that overlap, repeat and arrive in any order. `StreamFrames`, `SendStream`, `FinalSize`,
  `ReceiveStream`, `StreamReceiving`, `StreamTransfer`: both halves of a stream and the two of them joined
  by an unreliable network. `SendProgress`, `StreamCompletion`, `StreamReading`, `FinalSizeRuns`: that what
  can be sent or read is. `StalledStream`: a run that never ends well.
- **Key update.** `KeyUpdate`, `KeyUpdateProtocol`, `KeyUpdateDue`: one endpoint's keys, and two endpoints
  that update them while packets are lost, repeated and reordered (section 6 of RFC 9001).
- **Acknowledgements and loss.** `ReceivedHistory`, `AckRanges`, `PacketNumberGenerator`,
  `PacketNumberSkips`, `PacketSeqs`, `SentPacketHistory`, `AckScan`, `SentPackets`, `SentPacketRuns`,
  `SentPacketTimers`, `SentPacketAcks`, `BytesInFlight`, `AckProtocol`.
- **Packets.** `VarInt`, `StreamCodec`, `ControlFrames`, `AckFrames`, `FrameParser`, `Payloads`: the wire
  format. `Framer`, `PacketPacker`: what goes into the next packet. `FramerSharing`, `FramerFairness`,
  `PackerProgress`: this repository's own rule for sharing a packet between streams, and that nothing is
  held back. `PacketNumbers`: truncated packet numbers.
- **Credit.** `FlowControl`, `FlowControlRuns`, `FlowControlLink`, `FlowControlCredit`, `IncomingStreams`,
  `IncomingAnswers`.
- **Containers.** `LinkedList` (the ring list, on real objects), `TokenRing`, `TokenStore`.
- **Replay.** `DynamicQueue`, `Replay`, `ReplayFairness`.
- `Protocol`, `Seqs`, `Modulo` and `Gaps` hold shared types and facts.

Objects that the source updates in place are classes. Each method is proved equal to a specification
function on the object's state (`State()`), and the theorems are about those functions: what every
operation keeps, then what holds after every run. Runs are sequences of steps; `Run(...).Reached?` says
that every step was possible. `dafny verify dfyconfig.toml` checks everything.

## What the proofs say about the code

- **Sorter delivery is not unconditional.** A frame that starts at the offset of a shorter queued entry
  replaces it (quic-go/frame_sorter.go:48-58). When the longer frame ends inside bytes received before,
  the reader can be cut off from bytes that no gap reports as missing. If it starts where a gap ends and
  stops before the next one, it is even queued as an empty entry. An honest sender that splits a
  retransmission can cause this, and the stream then never recovers
  (`StalledStream.SplitRetransmissionStalls`). `SorterDelivery.PushDelivery` gives the exact condition.
- **Retry and bytes in flight.** `ResetForRetry` sets bytes in flight to zero, whatever the other spaces
  track. The counter is exact, and cannot become negative, if and only if nothing was in flight there
  (`BytesInFlight.BytesInFlightConserved`, `BytesInFlight.NeverNegative`). `RetryCanUnderflow` is a run of
  the handler that ends below zero. The session never produces it: it ignores a Retry after the first
  packet it received (quic-go/session.go:662-665), and until then it has no Handshake keys.
- **A FIN can be forgotten.** A stream of which only the FIN is left leaves the queue of the framer when it
  is offered less than a header (quic-go/send_stream.go:221-225 answers that there is no data). Headers take
  at most 18 bytes, so it needs a multiplexing limit that makes the parts of a packet shorter than that
  (`SendProgress.StaysActive`, `FramerSharing.PacketShared`).
- **STOP_SENDING** writes its error code with 16 bits although the field holds 62. Exactly the larger
  codes change in transit (`ControlFrames.OnlyStopSendingLoses`).
- **ACK frames.** The size limit of 1000 bytes does not count the first range, so a frame can take 1008.
  When ranges are left out, one fewer is written than fits (`AckFrames.OneRangeFewer`). A packet therefore
  needs room for 1008 bytes, or 1009 with a PING, to be sure to fit.
- **Packet numbers.** The unpacker keeps one largest number for all three packet number spaces
  (quic-go/packet_unpacker.go:29, 88). A packet of a space whose numbers lag by half a window or more behind
  another space is decoded to a wrong number (`PacketNumbers.SharedMaximumMisleads`);
  `PacketNumbers.HeaderRoundTrip` gives the exact condition.
- **Replay** ends if and only if no entries wait for one another (`Replay.ReplayEnds`). In the dynamic
  queue the comments speak of scripts before the first image, but the code remembers the first script
  instead (python/har_converter.py:316-325). The model follows the code.

## Model

| member | source | states |
|---|---|---|
| `FrameSorter.FrameSorter.constructor` | quic-go/frame_sorter.go:23-30 | A new sorter has one gap, from 0 to the largest offset, and is in the state all runs start from. |
| `FrameSorter.GapsBeforeFirst` | quic-go/frame_sorter.go:63-73 | All gaps in front of the first one touched end before the frame starts. |
| `FrameSorter.LastTouching` | quic-go/frame_sorter.go:88-110 | The last gap a frame reaches starts no later than its end, and the next gap starts after it. |
| `FrameSorter.FrameSorter.FindFirst` | quic-go/frame_sorter.go:61-77 | The walk over the gaps finds the first gap touched, and says "duplicate" exactly if the frame ends at or before its start. |
| `FrameSorter.FrameSorter.Walk` | quic-go/frame_sorter.go:88-110 | The second walk ends in front of the first gap that starts behind the frame or fails at the last gap of the list, and drops the queued entry at the end of each gap passed, except one at the start of the frame, and no other. |
| `FrameSorter.FrameSorter.Absorb` | quic-go/frame_sorter.go:88-112 | The walk fails exactly if the frame ends at or beyond the largest offset; then the gaps between the first one touched and the last are gone and their entries dropped. Otherwise it finds the last gap touched. |
| `FrameSorter.FrameSorter.InsertBehind` | quic-go/frame_sorter.go:79-163 | The part behind the first walk agrees with its specification, in every branch and with every error. |
| `FrameSorter.FrameSorter.Shrink` | quic-go/frame_sorter.go:120-146 | The touched gaps are replaced by what remains of the first and the last, in all five cases; the gaps around them stay. |
| `FrameSorter.FrameSorter.Store` | quic-go/frame_sorter.go:79-163 | Cutting the frame to missing bytes, gap surgery and queueing together give the specified state; too many gaps is reported exactly above the limit. |
| `FrameSorter.FrameSorter.InsertFrame` | quic-go/frame_sorter.go:43-164 | The whole of push agrees with its specification: verdict and state, for every outcome, the two BUG errors included. |
| `FrameSorter.FrameSorter.PushFrame` | quic-go/frame_sorter.go:32-41 | Push agrees with its specification and keeps the gap list well formed, whatever the outcome; a duplicate is not an error. |
| `FrameSorter.FrameSorter.PopFrame` | quic-go/frame_sorter.go:166-175 | Pop returns exactly the entry at the read position, or nothing, and moves the position behind it. |
| `FrameSorter.InsertStores` | quic-go/frame_sorter.go:79-163 | A frame that touches a gap and overlaps missing bytes is stored, whatever else is queued. |
| `FrameSorter.PushWellFormed` | quic-go/frame_sorter.go:32-164 | After any push, with any outcome, the gaps are non-empty, sorted, strictly apart and the last ends at the largest offset. |
| `SorterExactness.PushExact` | quic-go/frame_sorter.go:32-164 | From any reachable state, a push that ends below the largest offset is stored, a duplicate, or one gap too many; never one of the two BUG errors. |
| `SorterExactness.PushKeys` | quic-go/frame_sorter.go:48-163 | An entry queued after a push was queued before with the same bytes, or is part of the pushed frame at its right place. |
| `SorterExactness.PushInv` | quic-go/frame_sorter.go:32-164 | Every push keeps the sorter invariant and leaves the read position alone. |
| `SorterExactness.PopInv` | quic-go/frame_sorter.go:166-175 | Every pop keeps the sorter invariant. |
| `SorterExactness.GapsAreComplement` | quic-go/frame_sorter.go:32-175 | Over every run of pushes and pops: an offset lies in a gap if and only if no push covered it. |
| `SorterExactness.BugErrorsUnreachable` | quic-go/frame_sorter.go:75-112 | After every run neither "BUG: no gap found" nor "BUG: no end gap found" can be returned. |
| `SorterDelivery.PushDelivery` | quic-go/frame_sorter.go:43-164 | Exact condition for keeping delivery: after an error-free push everything received can still be popped in order if and only if the push does not replace an entry on the path by one that ends inside a received block with no path on from there (Stalls, decided before the push). |
| `SorterDelivery.StoreDelivery` | quic-go/frame_sorter.go:79-163 | The same equivalence for frames that fill missing bytes, across any number of gaps. |
| `SorterDelivery.PopDelivery` | quic-go/frame_sorter.go:166-175 | Popping keeps everything received deliverable. |
| `SorterDelivery.DrainReaches` | quic-go/frame_sorter.go:166-180 | Popping until nothing is returned reaches the first gap if and only if the queued entries form a path to it. |
| `SorterDelivery.Delivery` | quic-go/frame_sorter.go:32-175 | Over every run whose pushes neither err nor stall: once all bytes below n were pushed, popping until nil reads at least up to n. |
| `SorterDelivery.PushInOrder` | quic-go/frame_sorter.go:43-164 | A frame that continues the bytes before the last gap is queued unchanged and only moves the start of that gap. |
| `SorterDelivery.SplitFramesCanStall` | quic-go/frame_sorter.go:48-58 | Delivery fails for five pushes [5,6), [6,8), [8,10), [5,8), [0,5): all bytes below 10 are covered and no gap is left there, yet popping stops at 5. |
| `SorterDelivery.FourthFrameStalls` | quic-go/frame_sorter.go:48-58 | The fourth of these pushes is one that the exact condition names. |
| `StreamFrames.MaxDataLenFits` | quic-go/core/wire/stream_frame.go:123-159 | MaxDataLen is exact for packet sizes: frames with at most that much data fit, and one byte more fits only at the single size where the length field grows. |
| `StreamFrames.SplitParts` | quic-go/core/wire/stream_frame.go:166-192 | Splitting yields two adjacent non-empty frames with the same bytes in order, the FIN only on the second, and a first part within the limit. |
| `StreamCodec.StreamRoundTrip` | quic-go/core/wire/stream_frame.go:25-120 | Every STREAM frame is read back as written with the rest of the packet untouched; without a length field, if it is last. |
| `StreamCodec.Encode` | quic-go/core/wire/stream_frame.go:94-132 | The written frame has exactly the length computed for it. |
| `SendStream.SendStream.constructor` | quic-go/send_stream.go:62-77 | A new stream has sent, queued and counted nothing. |
| `SendStream.SendStream.StartWrite` | quic-go/send_stream.go:83-106 | A write is refused exactly after Close or a cancellation, otherwise its bytes become the pending data. |
| `SendStream.SendStream.GetDataForWriting` | quic-go/send_stream.go:269-300 | Cuts as many pending bytes as frame, window and data allow, advances the offset by that many, and sets the FIN exactly once, with the last byte. |
| `SendStream.SendStream.PopNewStreamFrame` | quic-go/send_stream.go:216-249 | The frame with new data and the "more data" answer are those of the specification, in every case (no room, nothing to send, FIN only, blocked). |
| `SendStream.SendStream.MaybeGetRetransmission` | quic-go/send_stream.go:251-259 | A queued frame is returned whole or its first part, the rest staying at the head of the queue. |
| `SendStream.SendStream.PopStreamFrame` | quic-go/send_stream.go:171-214 | Retransmissions go before new data; each frame handed out is counted as outstanding. |
| `SendStream.SendStream.IsNewlyCompleted` | quic-go/send_stream.go:318-325 | Completion is reported once, when nothing is outstanding or queued and the stream has ended. |
| `SendStream.SendStream.OnFrameAcked` | quic-go/send_stream.go:302-316 | An acknowledged frame is no longer outstanding; the counter stays non-negative. |
| `SendStream.SendStream.QueueRetransmission` | quic-go/send_stream.go:328-341 | A lost frame joins the end of the retransmission queue, with its length field, and is no longer outstanding. |
| `SendStream.SendStream.CloseStream` | quic-go/send_stream.go:344-356 | Close ends writing unless the stream was cancelled. |
| `SendStream.SendStream.CancelWrite` | quic-go/send_stream.go:358-385 | Cancelling takes effect once, ends writing, and completes the stream if nothing is outstanding or queued. |
| `SendStream.PopFits` | quic-go/send_stream.go:171-300 | Every frame handed out can be encoded and fits the size asked for. |
| `SendProgress.PopYields` | quic-go/send_stream.go:171-300 | Exactly when a pop hands out a frame, by the fields: with lost frames queued, if the first fits whole or a byte of it does; else if the stream is not cancelled, there is room for a header and a byte, and data waits within a window or only the FIN waits. |
| `SendProgress.NewFrame` | quic-go/send_stream.go:216-300 | A new frame starts where the last one ended, takes data until it, the window or the frame is used up, and has the FIN exactly if the stream is closed, the FIN was not sent and nothing is left. |
| `SendProgress.ResentFrame` | quic-go/send_stream.go:251-259 | A lost frame goes out whole if it fits, else a first part without the FIN; the rest stays at the head of the queue with the FIN. |
| `SendProgress.ResentInOrder` | quic-go/send_stream.go:251-259 | Lost frames are sent again in the order in which they were lost, behind those lost before. |
| `SendProgress.NoFrame` | quic-go/send_stream.go:171-300 | A pop that hands out nothing changes nothing. |
| `SendProgress.StaysActive` | quic-go/send_stream.go:185-249 | A stream that still has something to send after a pop says so, except exactly if flow control has just stopped it, or only the FIN is left and the frame was to be too short for a header. |
| `SendProgress.ActiveInVain` | quic-go/send_stream.go:185-249 | A stream that says so without reason was sending its last lost frame. |
| `ReceiveStream.ReceiveStream.constructor` | quic-go/receive_stream.go:59-74 | A new stream has an empty sorter, nothing read and no final offset. |
| `ReceiveStream.ReceiveStream.HandleStreamFrame` | quic-go/receive_stream.go:242-258 | A frame is checked against the final size, sets the final offset if it has the FIN, and goes to the sorter; each error is told apart. |
| `ReceiveStream.ReceiveStream.DequeueNextFrame` | quic-go/receive_stream.go:195-204 | The next frame is popped, and is the last one exactly if its end is the final offset. |
| `ReceiveStream.ReceiveStream.CopyChunk` | quic-go/receive_stream.go:173-181 | Copies what fits from the current frame and moves the cursor by that much. |
| `ReceiveStream.ReceiveStream.ReadOnce` | quic-go/receive_stream.go:112-191 | One round of the read loop agrees with its specification. |
| `ReceiveStream.ReceiveStream.ReadUntil` | quic-go/receive_stream.go:112-192 | The read loop ends and computes the recursive specification of reading. |
| `ReceiveStream.ReceiveStream.ReadBytes` | quic-go/receive_stream.go:82-193 | Read returns the bytes, outcome and state of the specification; after the FIN it returns EOF at once. |
| `StreamReceiving.UpdateKeeps` | quic-go/core/flowcontrol/stream_flow_controller.go:57-82 | A frame of an honest sender never contradicts the final size, in whatever order frames arrive. |
| `StreamReceiving.DeliverKeeps` | quic-go/receive_stream.go:242-258 | Delivering any honest frame, in any order and any number of times, keeps the receiver consistent with the bytes written and is never a final size error. |
| `StreamReceiving.ReadKeeps` | quic-go/receive_stream.go:82-193 | A read hands out the next bytes of the stream, at most as many as asked for, and EOF exactly when all of them and the FIN have been read. |
| `StreamTransfer.StreamSafety` | quic-go/receive_stream.go:82-258 | For every run of writes, pops, splits, losses, retransmissions, repeated and reordered deliveries, cancellations and reads: the bytes read are a prefix of the bytes written, and EOF only follows the last of them. |
| `StreamTransfer.NoFinalSizeError` | quic-go/receive_stream.go:242-258 | In every reachable state no frame of the sender, however late, is refused with a final size error. |
| `StreamTransfer.NothingForgotten` | quic-go/send_stream.go:171-341 | In every reachable state each byte cut into a frame, and the FIN, is acknowledged, in flight or queued, also after a cancellation; the counter is exactly the number of frames in flight, so both panics are unreachable; completion is reported at most once. |
| `StreamTransfer.CompletionMeansAcked` | quic-go/send_stream.go:302-325 | If completion was reported without a cancellation, every byte written lies in an acknowledged frame and the FIN was acknowledged. |
| `StreamTransfer.PopGenuine` | quic-go/send_stream.go:171-300 | A pop hands out only bytes of the stream at their own offsets, a FIN only at the end, and keeps the retransmission queue that way. |
| `StreamTransfer.PopCounts` | quic-go/send_stream.go:171-183 | The counter of outstanding frames moves with the frames in flight, and a finished stream sends nothing more. |
| `StreamCompletion.CompletionExact` | quic-go/send_stream.go:302-385 | Over every run: completion has been reported, once, if and only if the stream has ended by FIN or cancellation and nothing of it is in flight or queued. |
| `StreamCompletion.ClosingExact` | quic-go/send_stream.go:344-385 | Over every run: a stream is closing if and only if it was closed and never cancelled. |
| `StreamCompletion.EverythingGoesOut` | quic-go/send_stream.go:171-300 | From every reachable state of a closed stream, any pops with room for a header and a byte and with a window, as many as bytes and frames are left, send all bytes, all lost frames and the FIN. |
| `StreamCompletion.ClosedStreamCompletes` | quic-go/send_stream.go:171-325 | After that, acknowledging what is in flight reports completion. |
| `StreamReading.ReadExact` | quic-go/receive_stream.go:82-204 | A read ends because the buffer is full, because all is read, or because the next byte is not there; then it has taken exactly what popping the sorter until nothing is returned takes. |
| `StreamReading.ReadsToFirstGap` | quic-go/receive_stream.go:82-204 | If the queued entries form a path, an unfilled read has returned every byte up to the first gap. |
| `StreamReading.EofComes` | quic-go/receive_stream.go:82-204 | When all bytes are read and the final offset is known, the next read returns EOF. |
| `StreamReading.ArrivedIsRead` | quic-go/receive_stream.go:82-258 | In every reachable state in which all bytes and the FIN have arrived on an intact path, a large enough read returns all that is left and the next one EOF. |
| `FinalSizeRuns.AcceptedExact` | quic-go/core/flowcontrol/stream_flow_controller.go:53-82 | Frames are accepted, in whatever order, if and only if no two of them contradict each other about the size of the stream; what is then known is their largest end and whether it is final. |
| `StalledStream.SplitRetransmissionStalls` | quic-go/frame_sorter.go:48-58 | A run of an honest sender and receiver: ten bytes are written and sent in three frames, the middle one is lost and sent again in two parts, and all five frames arrive, the lost one late. Every byte has arrived, the reader gets five, and in no continuation, whatever is sent, delivered or read, does it ever get another. |
| `StalledStream.PushStuck` | quic-go/frame_sorter.go:32-164 | Once the byte at the read position has been received but is in no queued entry, no push brings it back. |
| `StalledStream.StuckForGood` | quic-go/receive_stream.go:82-258 | A reader that waits for such a byte reads nothing more in any continuation of the run. |
| `KeyUpdate.UpdatableAead.constructor` | quic-go/core/handshake/updatable_aead.go:84-144 | Both directions start in key phase 0 with the slots for current and next keys in step. |
| `KeyUpdate.UpdatableAead.Roll` | quic-go/core/handshake/updatable_aead.go:95-110 | Rolling moves every key slot one phase on, keeps the old receiving key, and resets counters and first packet numbers. |
| `KeyUpdate.UpdatableAead.OpenPacket` | quic-go/core/handshake/updatable_aead.go:147-199 | Opening, in every branch and error, agrees with its specification and keeps the key slots in step with the phase. |
| `KeyUpdate.UpdatableAead.SealPacket` | quic-go/core/handshake/updatable_aead.go:202-215 | A packet is sealed with the keys of the current phase; the first one of a phase is remembered. |
| `KeyUpdate.UpdatableAead.SetLargestAcked` | quic-go/core/handshake/updatable_aead.go:217-219 | Only the largest acknowledged number changes. |
| `KeyUpdate.UpdatableAead.KeyPhase` | quic-go/core/handshake/updatable_aead.go:221-247 | Asking for the phase starts an update exactly if one is allowed and due, and returns the resulting bit. |
| `KeyUpdateProtocol.PeerCaughtUp` | quic-go/core/handshake/updatable_aead.go:221-225 | If an endpoint may update, its peer has reached its phase, and has sent and received in it if it is still there. |
| `KeyUpdateProtocol.NextKeeps` | quic-go/core/handshake/updatable_aead.go:95-247 | Every step of either endpoint keeps the two-party invariant. |
| `KeyUpdateProtocol.Lockstep` | quic-go/core/handshake/updatable_aead.go:147-247 | For every run of two honest endpoints over a network that loses, repeats and reorders, the key phases differ by at most one. |
| `KeyUpdateProtocol.OpenExact` | quic-go/core/handshake/updatable_aead.go:147-199 | In every reachable state a packet of the peer opens if and only if it was sealed in the current phase, the next one, or the previous one while its key is kept; a previous-phase packet that fails is reported as "keys dropped". |
| `KeyUpdateProtocol.NextKeyOpens` | quic-go/core/handshake/updatable_aead.go:172-191 | A packet with the other phase bit, not older than the first one of this phase, always opens with the next keys and moves the endpoint on. |
| `KeyUpdateProtocol.NoProtocolViolation` | quic-go/core/handshake/updatable_aead.go:172-181 | In no run does a packet of an honest peer cause "wrong initial keyphase" or "keys updated too quickly". |
| `KeyUpdateDue.CountersExact` | quic-go/core/handshake/updatable_aead.go:147-219 | Over every run the counters are what they are named for: packets sent in this phase, the smallest of their numbers, openings with the current keys since they came into use, and the number last seen acknowledged. |
| `KeyUpdateDue.UpdateExact` | quic-go/core/handshake/updatable_aead.go:221-247 | After every run an endpoint that is asked for the key phase, or sends, moves to the next one if a packet of this phase was acknowledged and as many as the interval were sent or opened in it, and stays as it is otherwise. |
| `KeyUpdateDue.PrevExact` | quic-go/core/handshake/updatable_aead.go:95-151 | Over every run the previous keys are there from the first update on until they expire. |
| `KeyUpdateDue.OpensExactly` | quic-go/core/handshake/updatable_aead.go:147-199 | After every run a packet of the peer opens if and only if it is of this phase, the next one, or the previous one whose keys have not expired. |
| `ReceivedHistory.ReceivedPacketHistory.constructor` | quic-go/core/ackhandler/received_packet_history.go:18-22 | The history starts empty. |
| `ReceivedHistory.ReceivedPacketHistory.ReceivedPacket` | quic-go/core/ackhandler/received_packet_history.go:25-32 | A packet below the deletion bound is ignored; any other is added and old ranges are dropped if there are too many. |
| `ReceivedHistory.ReceivedPacketHistory.AddToRanges` | quic-go/core/ackhandler/received_packet_history.go:34-75 | The walk from the highest range extends, merges or inserts as specified, in all cases. |
| `ReceivedHistory.ReceivedPacketHistory.MaybeDeleteOldRanges` | quic-go/core/ackhandler/received_packet_history.go:79-83 | Ranges are dropped from the low end until at most 500 remain. |
| `ReceivedHistory.ReceivedPacketHistory.DeleteBelowNumber` | quic-go/core/ackhandler/received_packet_history.go:86-105 | Everything below the bound goes, and the bound never falls. |
| `ReceivedHistory.AddExact` | quic-go/core/ackhandler/received_packet_history.go:34-75 | Adding a number adds exactly that number and keeps the ranges sorted and non-adjacent. |
| `ReceivedHistory.CutExact` | quic-go/core/ackhandler/received_packet_history.go:86-105 | Cutting forgets exactly the numbers below the bound. |
| `ReceivedHistory.LimitExact` | quic-go/core/ackhandler/received_packet_history.go:79-83 | Only whole lowest ranges are dropped, and only above 500. |
| `ReceivedHistory.HistoryExact` | quic-go/core/ackhandler/received_packet_history.go:25-105 | Over every run the ranges are sorted, apart, at most 500, and hold exactly the received numbers at or above the bound, less those whose range was dropped for lack of room. |
| `AckRanges.ValidateAckRanges` | quic-go/core/wire/ack_frame.go:178-205 | Checking neighbours accepts exactly the lists that are non-empty with the highest range first and no two ranges overlapping or adjacent. |
| `AckRanges.Search` | quic-go/core/wire/ack_frame.go:223-227 | The lookup index is the first range whose lower end is not above the number. |
| `AckRanges.AcksPacketExact` | quic-go/core/wire/ack_frame.go:218-228 | One lookup decides exactly whether some range holds the packet number. |
| `AckRanges.GetAckRanges` | quic-go/core/ackhandler/received_packet_history.go:108-120 | The ranges are those of the history, highest first. |
| `AckRanges.FromHistoryValid` | quic-go/core/ackhandler/received_packet_history.go:108-120 | Ranges made from a history pass validation and acknowledge exactly what it holds. |
| `AckRanges.PrefixValid` | quic-go/core/wire/ack_frame.go:107-126 | Writing only the first ranges, as the size limit may require, is still valid and acknowledges no more. |
| `PacketNumberGenerator.PacketNumbers.constructor` | quic-go/core/ackhandler/packet_number_generator.go:23-30 | Numbers start at the initial one with a first skip chosen. |
| `PacketNumberGenerator.PacketNumbers.PopNumber` | quic-go/core/ackhandler/packet_number_generator.go:36-59 | Pop agrees with its specification, including the skip and the list of skipped numbers. |
| `PacketNumberGenerator.PacketNumbers.ValidateAck` | quic-go/core/ackhandler/packet_number_generator.go:71-78 | An ACK is accepted exactly if it acknowledges none of the remembered skipped numbers. |
| `PacketNumberGenerator.PopInv` | quic-go/core/ackhandler/packet_number_generator.go:36-59 | A popped number is new and never one remembered as skipped; what is newly remembered was never handed out; at most ten are remembered. |
| `PacketNumberSkips.SkipsExact` | quic-go/core/ackhandler/packet_number_generator.go:23-61 | Over every run each number from the first on is handed out or skipped, one is skipped after each two and as many more as were drawn for it, and the last ten skipped are remembered. |
| `SentPacketHistory.SentPacketHistory.SentPacket` | quic-go/core/ackhandler/sent_packet_history.go:21-24 | The packet joins list and index, which stay in step. |
| `SentPacketHistory.SentPacketHistory.GetPacket` | quic-go/core/ackhandler/sent_packet_history.go:26-31 | The index finds a packet exactly if the list holds one with that number. |
| `SentPacketHistory.SentPacketHistory.FirstOutstanding` | quic-go/core/ackhandler/sent_packet_history.go:50-55 | The first packet of the list, if any. |
| `SentPacketHistory.SentPacketHistory.Len` | quic-go/core/ackhandler/sent_packet_history.go:57-59 | The size of the index is the length of the list. |
| `SentPacketHistory.SentPacketHistory.Remove` | quic-go/core/ackhandler/sent_packet_history.go:61-69 | Removing fails exactly for unknown numbers and otherwise takes out exactly that packet from list and index. |
| `AckScan.DetermineNewlyAcked` | quic-go/core/ackhandler/sent_packet_handler.go:236-282 | The single pass over history and ranges finds exactly the tracked packets the ACK acknowledges, in order; its BUG error is unreachable. |
| `AckScan.AckedSetExact` | quic-go/core/ackhandler/sent_packet_handler.go:236-282 | What the pass selects is exactly the tracked packets whose number the lookup acknowledges. |
| `AckScan.FindLost` | quic-go/core/ackhandler/sent_packet_handler.go:353-370 | The pass that stops early finds exactly the lost packets and the next loss time. |
| `AckScan.LostSetExact` | quic-go/core/ackhandler/sent_packet_handler.go:353-370 | A tracked packet is selected exactly if it is at or below the largest acknowledged number and old enough or three or more behind. |
| `SentPackets.SentPacketHandler.constructor` | quic-go/core/ackhandler/sent_packet_handler.go:78-101 | Three empty packet number spaces and nothing in flight. |
| `SentPackets.SentPacketHandler.GetPacketNumberSpace` | quic-go/core/ackhandler/sent_packet_handler.go:130-141 | Each encryption level has its own space. |
| `SentPackets.SentPacketHandler.SentPacket` | quic-go/core/ackhandler/sent_packet_handler.go:123-170 | An ack-eliciting packet is tracked and counted, any other only raises the largest number sent. |
| `SentPackets.SentPacketHandler.DetectLostPackets` | quic-go/core/ackhandler/sent_packet_handler.go:336-402 | The lost packets leave the history, bytes in flight fall by their lengths, and each is reported lost. |
| `SentPackets.SentPacketHandler.OnAck` | quic-go/core/ackhandler/sent_packet_handler.go:172-230 | An ACK is refused for an unsent or skipped number, ignored if it acknowledges nothing new, and otherwise removes acknowledged and then lost packets. |
| `SentPackets.SentPacketHandler.OnLossDetectionTimeout` | quic-go/core/ackhandler/sent_packet_handler.go:404-435 | The alarm detects losses in the space whose loss time is earliest, or counts a probe timeout. |
| `SentPackets.SentPacketHandler.QueueProbePacket` | quic-go/core/ackhandler/sent_packet_handler.go:530-555 | The first outstanding packet, Initial before Handshake before 1-RTT, is taken out for a probe. |
| `SentPackets.SentPacketHandler.DropPackets` | quic-go/core/ackhandler/sent_packet_handler.go:103-121 | Dropping a space takes its packets out of the bytes in flight. |
| `SentPackets.SentPacketHandler.Reset` | quic-go/core/ackhandler/sent_packet_handler.go:563-572 | A Retry starts the Initial space over, keeping only the packet number, and sets bytes in flight to zero. |
| `SentPacketRuns.StepInv` | quic-go/core/ackhandler/sent_packet_handler.go:103-572 | Every operation keeps the accounting invariant. |
| `BytesInFlight.BytesInFlightConserved` | quic-go/core/ackhandler/sent_packet_handler.go:103-572 | Over every run bytes in flight equal the summed lengths of all tracked packets less what was in flight outside the Initial space when the last Retry came; so they are exact if and only if there was no Retry or nothing was in flight there at that time. |
| `BytesInFlight.HarmlessRetries` | quic-go/core/ackhandler/sent_packet_handler.go:563-572 | If every Retry of a run comes while nothing is in flight outside the Initial space, bytes in flight are exact and not negative. |
| `BytesInFlight.NeverNegative` | quic-go/core/ackhandler/sent_packet_handler.go:103-572 | After every run: bytes in flight stay non-negative in all continuations without a Retry if and only if there was no Retry or nothing was in flight outside the Initial space when the last one came. |
| `BytesInFlight.RetryCanUnderflow` | quic-go/core/ackhandler/sent_packet_handler.go:563-572 | A run that fails: a Handshake packet is sent, a Retry comes, the Handshake space is dropped, and bytes in flight are minus the length of the packet. |
| `SentPacketRuns.OneFate` | quic-go/core/ackhandler/sent_packet_handler.go:103-572 | Over every run each ack-eliciting packet sent is either tracked or has left by exactly one of acknowledged, lost, probed, dropped or reset, once; nothing else is tracked or has left. |
| `SentPacketRuns.AckExact` | quic-go/core/ackhandler/sent_packet_handler.go:172-230 | After an ACK that acknowledges something new, a packet is tracked if and only if it was, is not acknowledged and is not lost; so none is three or more below the largest acknowledged number. |
| `SentPacketRuns.AckReports` | quic-go/core/ackhandler/sent_packet_handler.go:172-230 | Each packet such an ACK takes out is reported as acknowledged if it is, else as lost. |
| `SentPacketTimers.TimerExact` | quic-go/core/ackhandler/sent_packet_handler.go:336-402 | The loss timer is set for the first packet not above the largest acknowledged one that is neither too old nor three numbers behind, and is unset if there is none. |
| `SentPacketTimers.EarliestIsLeast` | quic-go/core/ackhandler/sent_packet_handler.go:284-301 | The loss time chosen is set if any space has one, belongs to the space chosen, and none is earlier; of equal ones the earlier level wins. |
| `SentPacketTimers.ProbeOrder` | quic-go/core/ackhandler/sent_packet_handler.go:530-555 | A probe takes the oldest packet of the Initial space, else of the Handshake space, else of the 1-RTT space; there is none exactly if nothing is outstanding. |
| `SentPacketTimers.TimeoutsCounted` | quic-go/core/ackhandler/sent_packet_handler.go:404-435 | Over every run the timeout count is the number of alarms with packets outstanding and no loss timer set since the last ACK that acknowledged something new. |
| `SentPacketAcks.VerdictExact` | quic-go/core/ackhandler/sent_packet_handler.go:172-190 | After every run an ACK is refused if and only if its largest number is above the last one sent in this space, or it acknowledges a number remembered as skipped. |
| `SentPacketAcks.ConfirmedExact` | quic-go/core/ackhandler/sent_packet_handler.go:208-213 | The bound on what the peer has confirmed is the least one not below the old one and above all that the newly acknowledged packets acknowledged. |
| `AckProtocol.HonestAck` | quic-go/core/ackhandler/sent_packet_handler.go:172-190 | An ACK backed by received packets names no unsent and no skipped number, and acknowledges only what was received. |
| `AckProtocol.AcksSound` | quic-go/core/ackhandler/sent_packet_handler.go:172-282 | In every run of a sender and an honest peer over a network that loses, repeats and reorders packets and ACKs, no ACK is refused, and every packet it newly acknowledges was received. |
| `VarInt.WriteVarInt` | quic-go/core/utils/varint.go:69-84 | The number takes exactly the bytes VarIntLen promises. |
| `VarInt.VarIntRoundTrip` | quic-go/core/utils/varint.go:20-84 | Every number up to 62 bits is read back as written, leaving the rest. |
| `ControlFrames.ControlRoundTrip` | quic-go/core/wire/frame_parser.go:43-90 | Every frame other than STREAM and ACK that its parser accepts is read back as written, 16-bit fields reduced, leaving the rest, and has the computed length. |
| `ControlFrames.WriteLength` | quic-go/core/wire/crypto_frame.go:45-56 | A written CRYPTO or control frame has exactly the length computed for it. |
| `ControlFrames.OnlyStopSendingLoses` | quic-go/core/wire/stop_sending_frame.go:17-47 | A frame is changed in transit if and only if it is STOP_SENDING with an error code above 16 bits. |
| `AckFrames.DelayRoundTrip` | quic-go/core/wire/ack_frame.go:230-232 | The delay comes back rounded down to 8 microseconds. |
| `AckFrames.NumEncodableExact` | quic-go/core/wire/ack_frame.go:149-163 | At least one range is written, those written fit the 1000 bytes, and all are written exactly if they fit. |
| `AckFrames.OneRangeFewer` | quic-go/core/wire/ack_frame.go:149-163 | If ranges are left out, one range more would still have fit, but not two. |
| `AckFrames.LengthBound` | quic-go/core/wire/ack_frame.go:129-145 | An ACK frame takes at most 1008 bytes, the limit of 1000 not counting the first range. |
| `AckFrames.Write` | quic-go/core/wire/ack_frame.go:107-145 | The written frame has exactly the length computed for it. |
| `AckFrames.ReadRangesValid` | quic-go/core/wire/ack_frame.go:66-101 | Whatever bytes are read, the ranges pass validation, so the check at the end of parsing never fails. |
| `AckFrames.AckRoundTrip` | quic-go/core/wire/ack_frame.go:22-126 | An ACK frame is read back with the ranges that were written and the rounded delay, leaving the rest. |
| `AckFrames.NumEncodableAckRanges` | quic-go/core/wire/ack_frame.go:149-163 | The loop computes the specified number of ranges. |
| `AckFrames.FrameLength` | quic-go/core/wire/ack_frame.go:129-145 | The loop computes the specified length. |
| `AckFrames.WriteFrame` | quic-go/core/wire/ack_frame.go:107-126 | The loop writes the specified bytes. |
| `AckFrames.ReadAckRanges` | quic-go/core/wire/ack_frame.go:66-88 | The loop reads the specified ranges or fails as specified. |
| `AckFrames.ParseAckFrame` | quic-go/core/wire/ack_frame.go:22-104 | The parser agrees with its specification on all bytes. |
| `FrameParser.ParseNextFrame` | quic-go/core/wire/frame_parser.go:25-40 | The loop skips padding and parses the next frame, as specified on all bytes. |
| `FrameParser.SkipPadding` | quic-go/core/wire/frame_parser.go:26-31 | What follows padding is empty or starts with a non-zero type byte. |
| `FrameParser.FrameRoundTrip` | quic-go/core/wire/frame_parser.go:43-112 | Every frame allowed at an encryption level is parsed back as the peer should see it. |
| `FrameParser.HandshakeLevels` | quic-go/core/wire/frame_parser.go:92-112 | Of the frames a 1-RTT packet could carry, Initial and Handshake packets accept exactly CRYPTO, ACK and CONNECTION_CLOSE frames. |
| `FrameParser.OthersRefused` | quic-go/core/wire/frame_parser.go:92-112 | A payload of an Initial or Handshake packet with any other frame is refused. |
| `Payloads.WriteFrames` | quic-go/packet_packer.go:534-538 | Writing fails exactly if some frame cannot be written, and otherwise appends the frames in order. |
| `Payloads.WriteAndCheck` | quic-go/packet_packer.go:520-545 | The payload is the specified bytes and the size check never fails. |
| `Payloads.PayloadRoundTrip` | quic-go/packet_packer.go:525-538 | Parsing a payload gives the ACK with its written ranges and rounded delay, then the same frames in order, whatever the padding. |
| `Framer.FramerI.constructor` | quic-go/framer.go:38-47 | A new framer has nothing queued. |
| `Framer.FramerI.QueueControlFrame` | quic-go/framer.go:49-53 | The frame joins the end of the control queue. |
| `Framer.FramerI.AddActiveStream` | quic-go/framer.go:73-82 | A stream is queued unless it is already; queue and set of active streams stay in step. |
| `Framer.FramerI.AppendControlFrames` | quic-go/framer.go:55-70 | Frames are taken from the end while they fit, as specified. |
| `Framer.FramerI.Serve` | quic-go/framer.go:138-161 | A stream with more data goes to the back of the queue, any other is no longer active; its frame, if any, is appended and its length added. |
| `Framer.FramerI.VisitFirst` | quic-go/framer.go:102-162 | One round of the stream loop agrees with its specification: share, room, requeueing, removal of idle streams. |
| `Framer.FramerI.AppendStreamFrames` | quic-go/framer.go:85-174 | The whole loop with its shares and the final removal of a length field agrees with its specification, and the length returned is that of the frames. |
| `Framer.AskOk` | quic-go/send_stream.go:171-214 | A stream asked for a frame answers with one of its own that fits the room offered. |
| `Framer.StreamFramesFit` | quic-go/framer.go:85-174 | For every queue state: the frames fit although each stream is offered extra bytes, at most the multiplex limit of them, of different streams, all but the last with a length field, and the queue still names each active stream once. |
| `Framer.TakenFits` | quic-go/framer.go:55-70 | No control frame is lost or doubled, what is taken fits, and the next one left would not. |
| `FramerSharing.PacketShared` | quic-go/framer.go:84-175 | A packet is shared equally: a part is its room divided by the smaller of the number of streams and the limit. Streams are asked in queue order and send at most a part and its length field. One that is asked and sends nothing could not have filled the least room; asking ends early only at the limit or with less than 128 bytes left. Those not asked stay in front, those with more to send follow in order, unless stopped. |
| `FramerSharing.EqualShares` | quic-go/framer.go:108-161 | If the first streams, as many as can take part, each have a whole part to send, the packet holds a frame of each of the first k, all but the last using a whole part; k is the largest number that leaves 128 bytes before each frame, and follows from the sizes alone for parts from 128 bytes on. |
| `FramerFairness.Fair` | quic-go/framer.go:74-162 | The stream at position k of the queue is served by one of the next k + 1 packets, whatever streams join or change meanwhile: it gets a frame in, has gone, or cannot fill the least room. |
| `PacketPacker.PacketPacker.constructor` | quic-go/packet_packer.go:157-185 | A new packer has no frames to retransmit. |
| `PacketPacker.PacketPacker.AddAppData` | quic-go/retransmission_queue.go:50-55 | The frame joins the end of the queue. |
| `PacketPacker.PacketPacker.GetAppDataFrame` | quic-go/retransmission_queue.go:93-103 | The first frame is returned exactly if there is one and it fits. |
| `PacketPacker.PacketPacker.TakeLost` | quic-go/packet_packer.go:387-405 | The loop takes frames from the front of the queue while at least a minimal frame fits. |
| `PacketPacker.PacketPacker.TakeNew` | quic-go/packet_packer.go:407-413 | Control frames go before STREAM frames, which get what room the control frames leave. |
| `PacketPacker.PacketPacker.ComposeNextPacket` | quic-go/packet_packer.go:379-415 | Retransmissions, control frames, then STREAM frames are composed as specified, and what is left stays queued. |
| `PacketPacker.PacketPacker.PackPacket` | quic-go/packet_packer.go:275-304 | An ACK-only packet gets a PING every twentieth time; nothing is packed if there is nothing to send. |
| `PacketPacker.FrontFits` | quic-go/packet_packer.go:387-405 | Retransmissions keep their order, none is lost, and they never exceed the limit unless the ACK alone did. |
| `PacketPacker.PayloadFits` | quic-go/packet_packer.go:379-415 | For every state the payload fits the limit if and only if the ACK alone does; with 1008 bytes of room it always does. |
| `PacketPacker.ComposedRoundTrip` | quic-go/packet_packer.go:379-538 | Every composed payload can be written and is parsed back as the ACK and the same frames in order. |
| `PacketPacker.PackFits` | quic-go/packet_packer.go:279-302 | With room for 1009 bytes the packet fits, PING included; at most 19 packets in a row carry only an ACK. |
| `PackerProgress.NothingHeldBack` | quic-go/packet_packer.go:379-415 | Lost control frames, control frames and STREAM frames are left out only if the next one does not fit, too little room is left, or no stream that can take part has anything to send. |
| `PackerProgress.EveryTwentieth` | quic-go/packet_packer.go:286-301 | Of packets that would carry only an ACK exactly each twentieth gets a PING. |
| `FlowControl.UpdateGrows` | quic-go/core/flowcontrol/base_flow_controller.go:76-118 | A window that is advertised is larger than the one before; windows and window sizes never shrink, and nothing else changes. |
| `FlowControl.ConnectionFlowController.constructor` | quic-go/core/flowcontrol/connection_flow_controller.go:22-39 | A new connection may not send until the peer grants a window. |
| `FlowControl.ConnectionFlowController.IncrementHighestReceived` | quic-go/core/flowcontrol/connection_flow_controller.go:46-55 | The increment is added, and refused exactly if the receive window is exceeded. |
| `FlowControl.ConnectionFlowController.EnsureMinimumWindowSize` | quic-go/core/flowcontrol/connection_flow_controller.go:84-92 | The window size grows to the wanted size, at most to the maximum. |
| `FlowControl.StreamFlowController.constructor` | quic-go/core/flowcontrol/stream_flow_controller.go:27-50 | A new stream knows no final size. |
| `FlowControl.StreamFlowController.OnReceived` | quic-go/core/flowcontrol/stream_flow_controller.go:53-90 | Final size checks, stream window and connection window are decided in this order, with the specified state after each outcome. |
| `FlowControl.StreamFlowController.OnRead` | quic-go/core/flowcontrol/stream_flow_controller.go:92-96 | Bytes read count for the stream and the connection. |
| `FlowControl.StreamFlowController.AbandonStream` | quic-go/core/flowcontrol/stream_flow_controller.go:98-102 | Unread bytes count as read for the connection. |
| `FlowControl.StreamFlowController.OnSent` | quic-go/core/flowcontrol/stream_flow_controller.go:104-107 | Bytes sent count for the stream and the connection. |
| `FlowControl.StreamFlowController.NextWindowUpdate` | quic-go/core/flowcontrol/stream_flow_controller.go:122-139 | No update once the final size is known; a larger stream window enlarges the connection window. |
| `FlowControlRuns.StepInv` | quic-go/core/flowcontrol/stream_flow_controller.go:53-139 | Every step of an endpoint keeps the two-level invariant. |
| `FlowControlRuns.TwoLevels` | quic-go/core/flowcontrol/stream_flow_controller.go:53-139 | Over every error-free run the connection counters are the sums over its streams, nothing sent or received exceeds either window, and the windows advertised by the connection and each stream strictly increase. |
| `FlowControlLink.NoViolation` | quic-go/core/flowcontrol/stream_flow_controller.go:84-90 | Data sent within the peer's windows is never refused for flow control. |
| `FlowControlLink.WindowsRespected` | quic-go/core/flowcontrol/base_flow_controller.go:44-122 | In every run of two endpoints over a network that loses, repeats and reorders data and credit, no frame is refused for exceeding a window. |
| `FlowControlCredit.UpdateExact` | quic-go/core/flowcontrol/base_flow_controller.go:76-113 | A window is advertised if and only if at most three quarters of it are left; it then reaches a whole window beyond what was read, doubled up to the maximum exactly if more than half was read in the epoch, the RTT is known and this was too fast. So more than three quarters are left after the call. |
| `FlowControlCredit.StreamUpdateExact` | quic-go/core/flowcontrol/stream_flow_controller.go:122-139 | The same for a stream without a final size, and nothing with one; the window size of the connection grows to one and a half times that of the stream, up to its maximum, exactly when that of the stream has grown. |
| `FlowControlCredit.StreamCreditReturns` | quic-go/core/flowcontrol/stream_flow_controller.go:122-139 | Whatever happened before: once all that was sent is read, the next window update, when it arrives, leaves the sender more than three quarters of a window. |
| `FlowControlCredit.ConnCreditReturns` | quic-go/core/flowcontrol/connection_flow_controller.go:71-81 | The same for the connection. |
| `IncomingStreams.IncomingStreamsMap.constructor` | quic-go/streams_map_incoming_generic.go:35-51 | The peer may open the configured number of streams, none is open. |
| `IncomingStreams.IncomingStreamsMap.GetOrOpenStream` | quic-go/streams_map_incoming_generic.go:90-128 | A stream above the limit is refused, a deleted one is not found, and a new one is opened with all below it. |
| `IncomingStreams.IncomingStreamsMap.DeleteStream` | quic-go/streams_map_incoming_generic.go:130-169 | Deleting an unknown stream, or twice, is an error; a stream not yet accepted is only marked; a real deletion raises the limit and queues a frame for the peer. |
| `IncomingStreams.IncomingStreamsMap.AcceptStream` | quic-go/streams_map_incoming_generic.go:53-88 | The next stream in order is returned if the peer opened it, and then really deleted if it was marked. |
| `IncomingStreams.StepKeeps` | quic-go/streams_map_incoming_generic.go:53-169 | Every operation keeps the credit invariant. |
| `IncomingStreams.CreditEquation` | quic-go/streams_map_incoming_generic.go:35-169 | Over every run: the limit equals next number + maximum - open - 1 and also maximum + real deletions, open streams never exceed the maximum, streams 1, 2, 3, ... are accepted once each, and every limit sent stays valid. |
| `IncomingAnswers.AnswersExact` | quic-go/streams_map_incoming_generic.go:53-169 | After every run, told by the requests alone: a number above the limit is refused, a deleted stream is not found, every other one is; the next stream is accepted if and only if it was opened; and when deleting is done, put off, or an error. |
| `PacketNumbers.HeaderWindow` | quic-go/core/protocol/packet_number.go:72-81 | The header uses the shortest of two, three and four bytes whose half window spans what is unacknowledged. |
| `PacketNumbers.DecodeClosest` | quic-go/core/protocol/packet_number.go:27-61 | Decoding returns the number with the right low bytes that is closest to the next expected one among all non-negative numbers. |
| `PacketNumbers.NeverNegative` | quic-go/core/protocol/packet_number.go:43-53 | As a function of any largest number from -1 on, decoding is negative if and only if that number is -1 and the truncated one is in the upper half of its window; so never from 0 on, where the unpacker starts. |
| `PacketNumbers.DecodeExact` | quic-go/core/protocol/packet_number.go:27-61 | The exact condition: a number is decoded from its low bytes if and only if no other number with the same low bytes is closer to the next expected one or wins the tie. |
| `PacketNumbers.TruncationRoundTrip` | quic-go/core/protocol/packet_number.go:27-54 | Decoding is exact within half a window of the next expected number, in both directions. |
| `PacketNumbers.HeaderRoundTrip` | quic-go/core/protocol/packet_number.go:72-81 | A receiver that has all acknowledged packets decodes the number of a header if and only if the packet is above its largest number or less than half a window behind what it expects next, or exactly half and in an earlier epoch (up to 2^31 outstanding numbers). |
| `PacketNumbers.SharedMaximumMisleads` | quic-go/packet_unpacker.go:87-88 | One largest number for all packet number spaces can mislead: after packet 100000 of one space, packet 5 of another, in the two bytes its header uses, is taken for 131077. |
| `PacketNumbers.PacketUnpacker.constructor` | quic-go/packet_unpacker.go:36-41 | The largest number starts at 0. |
| `PacketNumbers.PacketUnpacker.UnpackNumber` | quic-go/packet_unpacker.go:87-179 | The number is decoded against the one largest number and is never negative; only a packet that opens raises that number. |
| `TokenRing.SingleOriginTokenStore.constructor` | quic-go/token_store.go:16-18 | A new ring is empty. |
| `TokenRing.SingleOriginTokenStore.AddToken` | quic-go/token_store.go:20-24 | Storing into the array agrees with the specification. |
| `TokenRing.SingleOriginTokenStore.PopToken` | quic-go/token_store.go:26-32 | Taking from the array agrees with the specification. |
| `TokenRing.AddPushes` | quic-go/token_store.go:20-24 | Adding pushes on a stack of the newest tokens; the oldest falls off a full one. |
| `TokenRing.PopTakes` | quic-go/token_store.go:26-32 | Popping takes the newest token off; an empty ring yields none and stays empty. |
| `TokenRing.Wraps` | quic-go/token_store.go:38-41 | The index arithmetic wraps around both ends of the buffer. |
| `TokenStore.LruTokenStore.constructor` | quic-go/token_store.go:62-69 | A new store is empty with the given sizes. |
| `TokenStore.LruTokenStore.Insert` | quic-go/token_store.go:71-100 | Put agrees with its specification on map, list and entries in all three cases. |
| `TokenStore.LruTokenStore.Extract` | quic-go/token_store.go:102-117 | Pop agrees with its specification on map, list and entries. |
| `TokenStore.PutRefines` | quic-go/token_store.go:71-100 | Put keeps map and list in agreement and refines putting into a list of origins, most recent first, that forgets the least recent one when full. |
| `TokenStore.PopRefines` | quic-go/token_store.go:102-117 | Pop keeps map and list in agreement and refines taking the newest token of an origin, which disappears with its last token. |
| `TokenStore.RunRefines` | quic-go/token_store.go:62-117 | Every run of puts and pops returns the same tokens as the reference list and leaves the same contents. |
| `TokenStore.ReferenceBounded` | quic-go/token_store.go:62-117 | Over every run there are at most the maximum number of different origins, each with one to the maximum number of tokens. |
| `LinkedList.List.constructor` | quic-go/core/utils/linkedlist/linkedlist.go:49-61 | A new list is an empty ring. |
| `LinkedList.List.InsertBehind` | quic-go/core/utils/linkedlist/linkedlist.go:87-96 | Pointer surgery refines insertion into a sequence, links and length staying consistent. |
| `LinkedList.List.Unlink` | quic-go/core/utils/linkedlist/linkedlist.go:104-112 | Pointer surgery refines removal from a sequence and leaves the element unlinked. |
| `LinkedList.List.Front` | quic-go/core/utils/linkedlist/linkedlist.go:64-69 | The first element, or none. |
| `LinkedList.List.Back` | quic-go/core/utils/linkedlist/linkedlist.go:72-77 | The last element, or none. |
| `LinkedList.List.Next` | quic-go/core/utils/linkedlist/linkedlist.go:27-32 | The following element, or none behind the last. |
| `LinkedList.List.Prev` | quic-go/core/utils/linkedlist/linkedlist.go:35-40 | The preceding element, or none before the first. |
| `LinkedList.List.Remove` | quic-go/core/utils/linkedlist/linkedlist.go:117-124 | An element of this list is removed; one of another list is left untouched. |
| `LinkedList.List.PushFront` | quic-go/core/utils/linkedlist/linkedlist.go:127-130 | Refines prepending to a sequence. |
| `LinkedList.List.PushBack` | quic-go/core/utils/linkedlist/linkedlist.go:133-136 | Refines appending to a sequence. |
| `LinkedList.List.InsertBefore` | quic-go/core/utils/linkedlist/linkedlist.go:141-147 | Inserts before the mark; nothing happens if the mark belongs to another list. |
| `LinkedList.List.InsertAfter` | quic-go/core/utils/linkedlist/linkedlist.go:152-158 | Inserts after the mark; nothing happens if the mark belongs to another list. |
| `LinkedList.List.MoveToFront` | quic-go/core/utils/linkedlist/linkedlist.go:163-169 | Moves an element of this list to the front; others are left alone. |
| `LinkedList.List.MoveToBack` | quic-go/core/utils/linkedlist/linkedlist.go:174-180 | Moves an element of this list to the back; others are left alone. |
| `LinkedList.List.MoveBefore` | quic-go/core/utils/linkedlist/linkedlist.go:185-190 | Moves an element to the place before the mark if both belong to this list and differ. |
| `LinkedList.List.MoveAfter` | quic-go/core/utils/linkedlist/linkedlist.go:195-200 | Moves an element to the place after the mark if both belong to this list and differ. |
| `LinkedList.List.PushBackList` | quic-go/core/utils/linkedlist/linkedlist.go:204-209 | Appends copies of all values of a list, which may be this list itself; another list stays unchanged. |
| `LinkedList.List.PushFrontList` | quic-go/core/utils/linkedlist/linkedlist.go:213-218 | Prepends copies of all values of a list, which may be this list itself; another list stays unchanged. |
| `DynamicQueue.ReorderedSorted` | python/har_converter.py:286-347 | The new queue holds the same streams, strictly ordered by class, time of enqueueing and old position. |
| `DynamicQueue.ReplaceWithDynamicQueue` | python/har_converter.py:286-347 | Distributing over five lists, sorting each by time and joining them computes that order. |
| `DynamicQueue.OrderByType` | python/har_converter.py:309-347 | By resource type: documents, stylesheets and fonts before all others, then XHR and the first script, then other scripts, then images, then the rest; within these by the time of enqueueing and then by old position. |
| `Replay.Replayer.constructor` | python/har_converter.py:436-453 | Only the root is enqueued, everything is still to be sent. |
| `Replay.Replayer.IsDependenciesMet` | python/har_converter.py:493-504 | True exactly if every dependency is finished. |
| `Replay.Replayer.EnqueueReady` | python/har_converter.py:457-469 | Every entry that is not available and has its dependencies met is enqueued with the current time, in order. |
| `Replay.Replayer.SendOne` | python/har_converter.py:233-260 | The first stream fills the packet and goes to the back, or finishes. |
| `Replay.Replayer.FillPacket` | python/har_converter.py:222-262 | The loop fills a packet as specified and ends. |
| `Replay.Replayer.Arrange` | python/har_converter.py:350-356 | The dynamic scheduler reorders the queue first, the naive one does not. |
| `Replay.Replayer.FinishPacket` | python/har_converter.py:473-482 | What the packet finishes is marked with its number, and the packet is logged. |
| `Replay.Replayer.IsReplayFinished` | python/har_converter.py:507-518 | True exactly if every entry is finished. |
| `Replay.Replayer.NextRound` | python/har_converter.py:455-482 | One round agrees with its specification and keeps the replay invariant. |
| `Replay.Replayer.Run` | python/har_converter.py:436-484 | With either scheduler, if no entries wait for one another, the loop ends with a correct log: lengths add up to each size, one frame ends each resource, no packet exceeds the block and only its last frame is unfinished, no resource is sent before the packets that ended its dependencies, and the recorded times match the packets. |
| `Replay.FillKeeps` | python/har_converter.py:222-262 | Filling a packet conserves bytes: what leaves the resources is what the frames carry; something is sent whenever something waits. |
| `Replay.RoundWorks` | python/har_converter.py:455-482 | Without a deadlock each round strictly reduces the bytes to send plus the resources to finish. |
| `Replay.StuckForever` | python/har_converter.py:436-484 | Entries that wait for one another keep the replay from ever ending. |
| `Replay.RoundStuck` | python/har_converter.py:457-469 | Entries that wait for one another are not sent by any round. |
| `Replay.ReplayEnds` | python/har_converter.py:436-484 | With either scheduler the replay ends if and only if no set of entries without the root exists in which each waits for another. |
| `Replay.SmallerIdsSuffice` | python/har_converter.py:436-484 | Dependencies with smaller ids rule such a set out. |
| `Replay.DependenciesFirst` | python/har_converter.py:457-469 | In every reachable state, a packet that holds a resource comes after the packets that ended its dependencies. |
| `Replay.FinishedCorrect` | python/har_converter.py:436-484 | A finished replay has a correct log. |
| `ReplayFairness.FillInTurn` | python/har_converter.py:231-262 | A packet serves the streams at the front of the queue in order; the rest of the queue stays, followed by the last stream served if it is unfinished. |
| `ReplayFairness.FillFull` | python/har_converter.py:231-262 | A packet is full or finishes everything that waited. |
| `ReplayFairness.ReadyJoin` | python/har_converter.py:456-469 | Exactly the entries that have become ready join the queue, behind all others, in increasing order, stamped with the number of the next packet; no other stamp changes. |
| `ReplayFairness.DynamicInOrder` | python/har_converter.py:286-347 | The dynamic scheduler serves the queue by resource type, then by the time of enqueueing, then by position. |
| `ReplayFairness.NaiveFair` | python/har_converter.py:224-262 | With the naive scheduler the entry at position k of the queue is in one of the next k + 1 packets, whatever becomes ready meanwhile. |

## Left out

- FrameSorter.FrameSorter.Absorb: the gaps passed by are unlinked in one step at the end of the walk or by `Shrink`, not one by one during the walk.
- SorterExactness.GapsAreComplement: runs consist of frames that end below 2^62 - 1, the largest offset.
- StreamTransfer.StreamSafety: the application writes fewer than 2^62 - 1 bytes, one write at a time as the blocking `Write` enforces; a frame the receiver refuses (flow control, too many gaps) ends the run.
- StreamFrames.MaxDataLenFits: for sizes up to 16383 bytes; packets have at most 1452.
- SendStream.SendStream.OnFrameAcked: requires an outstanding frame, where the source panics; `StreamTransfer.NothingForgotten` proves that this always holds.
- SendStream.SendStream.QueueRetransmission: requires an outstanding frame likewise.
- SentPackets.SentPacketHandler.OnAck: requires ranges that pass validation and increasing packet numbers; `AckFrames.ReadRangesValid` and `SentPacketRuns.StepInv` establish both.
- SentPackets.SentPacketHandler.SentPacket: requires that the packet number space still exists, where the source dereferences nil.
- KeyUpdate.UpdatableAead.OpenPacket: AEADs are ideal, a packet opens exactly with the keys of the phase it was sealed in; whether the previous keys have expired is a parameter.
- Framer.FramerI.AppendStreamFrames: packets of at most 1452 bytes, for which the source's float32 division rounds to the same integer as the exact quotient.
- FlowControl.UpdateGrows: whether auto-tuning finds the data consumed too fast is a parameter; the float thresholds 0.25, 0.5 and 1.5 are exact integer comparisons. A stream is abandoned at most once, after its final size is known.
- PacketNumbers.DecodeClosest: for a largest number from 0 on, as the unpacker has it; `NeverNegative` and `TruncationRoundTrip` also cover -1.
- PacketPacker.PacketPacker.TakeLost: lengths are integers. If the ACK alone exceeded the limit, the source's unsigned subtraction would wrap around and go on taking frames; packets of at least 1200 bytes rule that out, since an ACK takes at most 1008 (`AckFrames.LengthBound`).
- PacketPacker.FrontFits: the same; that nothing is taken beyond the limit is not what the source does in that case.
- PacketPacker.PacketPacker.TakeNew: the same, for the limits that are handed to the framer.
- PacketPacker.PacketPacker.ComposeNextPacket: the same.
- PacketPacker.PacketPacker.PackPacket: the same; packets before the handshake is confirmed are left out.
- TokenStore.LruTokenStore.Insert: entries live in an explicit map from references to entries, not in objects; capacity and size are at least 1, below which the source panics.
- LinkedList.List.constructor: lists are initialised when created; the lazy initialisation of a zero list is not modelled.
- Replay.Replayer.Run: entries have their position as resource id and the dependencies name entries, which the conversion of the recording is to provide.
- DoneCb callbacks, buffer pools and the reuse of memory: data are immutable values, and readers and buffers are passed as values.
- Deadlines, shutdown, `CancelRead` and RESET_STREAM on the receiving side, and the blocking and waking of goroutines.
- Congestion control, pacing, RTT estimation, loss delays and timers: times and delays are parameters.
- BLOCKED frames: when a sender reports that a window stops it; `SendStream` takes the answer as a parameter.
- Random skips of packet numbers: the random number is a parameter.
- Initial and Handshake packets of the packer, CRYPTO stream splitting, packet headers, header protection and encryption.
- The outgoing streams maps, sessions, servers, sockets, HTTP/3, tracing, configuration and command lines: input and output.
- schedulers/dynamic_fcfs_scheduler.go: it uses fields that its struct does not declare.
- Reading and converting recordings, statistics, and the two replay schedulers without a body in python/har_converter.py.
