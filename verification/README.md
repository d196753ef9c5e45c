# Verified model of the OxiQUIC transport core

This project models the protocol core of `oxiquic-transport`, a QUIC implementation, and
proves properties of it that hold in every run: data is delivered in order and completely
over a network that loses, repeats and reorders packets; acknowledgements mean what they
say; packets and frames survive the wire; flow control and congestion accounting balance.
`dafny verify dfyconfig.toml` checks all of it.

How it is put together:

- `Common`, `Coding`, `PacketNumbers`, `Frames`, `FrameLaws`, `FrameForms`, `FrameIO`,
  `Params`: the wire formats. `FrameIO` and the classes `Buf` and `Sink` are the codec as it runs; the other
  files hold the functions it is proved against and the laws of those functions.
- `HeaderProtection`, `Packets`, `PacketLaws`, `PacketIO`: protected and coalesced packets.
  The AEAD and the mask are parameters; all that is assumed is that opening undoes sealing
  and that sealing adds sixteen octets.
- `Reassembly`, `Streams`, `CryptoStreams`, `Acks`, `SentPackets`: the two halves of a
  stream, acknowledgement state, and the record of sent packets with loss detection.
- `Coverage`, `Track`, `Delivery`, `DeliveryProof`: one direction of a connection as a state
  machine whose packets and ACKs travel as encoded frames, its invariant, and the theorems
  about every run. The handshake is one more stream of it.
- `FlowControl`: the four controllers, and both parties over a lossy network.
- `Session`, `SessionFilling`, `SessionProgress`, `SessionLimits`: delivery and flow control
  together, with packets filled as the code fills them, and what can still be delivered
  from any state.
- `Rtt`, `Congestion`, `Bbr`, `BbrController`, `InFlight`: timers, controllers, and the
  accounting of bytes in flight across three packet-number spaces.

Objects that the source updates in place are classes. Each method is proved equal to a
function on the object's value, and the theorems are about those functions. Instants and
durations are counts of nanoseconds; octets are integers below 256.

Where the code does not do what its documentation, or the RFC it cites, leads one to
expect, the model follows the code and the exact condition is proved:

- A buffered segment is replaced by a later, shorter one with the same start
  (`Reassembly.AcceptAllIsUnion`). Streams are still delivered completely
  (`DeliveryProof.QuiescentDelivery`).
- A first FIN below data already received is accepted (`Streams.FirstFinExact`).
- Writing after the end of a stream is not refused. It is harmless exactly until the end is
  sent (`Streams.WriteAfterEndExact`), and the delivery theorems cover it until then.
- The Length of a long packet does not count the padding of a tiny payload
  (`PacketLaws.LongRoundTrip`).
- Packet-number recovery differs from Appendix A.3 of RFC 9000 in two border cases, and in
  one of them returns 2^62 (`PacketNumbers.DiffersFromReference`).
- Lost MAX_DATA and MAX_STREAM_DATA updates are not sent again. A connection or a stream
  can wait for one for ever (`FlowControl.LostUpdateStalls`), and exactly then some data
  cannot be delivered any more (`SessionLimits.DeliverableExactly`). At zero credit not
  even an empty FIN is sent (`SessionLimits.EndNeverSeen`). A window of 1 is never renewed
  (`FlowControl.FullWindowRenewed`).
- A Retry restarts the Initial packet numbers but keeps the old records, so that bytes in
  flight are charged for good (`InFlight.RetryLeaks`).
- In BBR the edge of the phase diagram back to Startup does not exist, the bandwidth
  estimate is frozen by the first loss, and every ACK counts as a round
  (`Bbr.RunAdvances`, `Bbr.EveryAckIsARound`). The window of the bandwidth filter never
  lowers the estimate and the minimum round trip never expires (`Bbr.BtlBwIsMaximum`,
  `Bbr.RtPropIsMinimum`). The bound set by a loss counts the lost bytes twice
  (`Bbr.LossExact`).

## Model

| member | source | states |
|---|---|---|
| DeliveryProof.PrefixSafety | crates/oxiquic-transport/src/stream.rs:61-302 | In every run of open, write, transmit, deliver, acknowledge, lose, probe and read steps, with packets and ACKs dropped, repeated and reordered, and with writes up to the moment the end is sent: no STREAM or CRYPTO frame is refused, what was read is a prefix of what was written, and the end is reported only when it was sent and all was read. |
| DeliveryProof.NoOrphan | crates/oxiquic-transport/src/sent_packet.rs:157-283 | In every run each written byte is in the fresh buffer at its place, in the resend queue, or in a packet that is outstanding or acknowledged; a requested FIN likewise. |
| DeliveryProof.SegmentsGenuine | crates/oxiquic-transport/src/stream.rs:113-171 | In every run each queued segment and each segment any packet carried equals the written stream at its offset, and a FIN stands only at its end, also after splitting and after probe clones. |
| DeliveryProof.QuiescentDelivery | crates/oxiquic-transport/src/stream.rs:131-293 | In every run, when a stream has nothing pending and no outstanding packet carries it, one read completes the whole stream and its end, although reassembly may replace a longer buffered segment by a shorter one. |
| DeliveryProof.HandshakeDelivery | crates/oxiquic-transport/src/crypto_stream.rs:33-136 | The same for the CRYPTO stream: TLS has a prefix of the handshake in every run, and all of it once nothing is pending or outstanding. |
| SessionLimits.DrainsOrStalls | crates/oxiquic-transport/src/connection/send.rs:702-789 | From every state a run of delivery and flow control together can reach, for every room of at least one byte per packet, with each stream giving at most one frame per packet and fresh data held to both credits: rounds that deliver, acknowledge, read, renew limits and send end with every stream complete or waiting for a limit that is stalled by lost updates. No update sent before need arrive, and packets are sent only when none is outstanding. |
| SessionLimits.DrainedComplete | crates/oxiquic-transport/src/stream.rs:72-77 | In that end state a stream with nothing pending has been read completely, its end included. |
| SessionLimits.DeliverableExactly | crates/oxiquic-transport/src/connection/send.rs:652-697 | From every reachable state there is a continuation that delivers all data without any update sent so far, if and only if every limit with half a window or more in unseen updates has room for all that is unsent, on each stream and on the connection. |
| SessionLimits.Needed | crates/oxiquic-transport/src/connection/send.rs:745-757 | Necessary in every continuation, of any steps and packet sizes, into which no earlier update arrives. |
| SessionLimits.Enough | crates/oxiquic-transport/src/connection/send.rs:702-789 | Sufficient with packets of any size. |
| SessionLimits.CompletesToo | crates/oxiquic-transport/src/connection/send.rs:745-760 | With a further byte of credit for an end that has no data left to go with, all streams are completed with their ends. |
| SessionLimits.EndNeverSeen | crates/oxiquic-transport/src/connection/send.rs:758-760 | Without that byte, on the stream or on the connection, and with the limit frozen, the end is not sent in any continuation into which no earlier update arrives. |
| SessionLimits.LostUpdateBlocks | crates/oxiquic-transport/src/connection/send.rs:819-833 | How it fails: used up, not yet renewed, with data unsent; the update is sent and lost. |
| SessionProgress.Drain | crates/oxiquic-transport/src/connection/send.rs:702-789 | The rounds behind these theorems, by induction on what is owed. |
| SessionProgress.Gather | crates/oxiquic-transport/src/connection/recv.rs:441-464 | Delivering and acknowledging every outstanding packet and reading every stream leaves nothing outstanding, and hands over all that was sent of every stream with an empty queue. |
| SessionProgress.AckEmpties | crates/oxiquic-transport/src/sent_packet.rs:176-201 | The newest ACK of a receiver that has every outstanding packet removes all records. |
| SessionProgress.SendWorks | crates/oxiquic-transport/src/connection/send.rs:702-789 | A packet is sent, and less is owed after it, whenever one stream has a segment queued, or something fresh and credit. |
| SessionProgress.TakeOwes | crates/oxiquic-transport/src/stream.rs:131-171 | Every frame taken from a stream lowers what the stream owes. |
| Session.SessionSafety | crates/oxiquic-transport/src/connection/send.rs:702-789 | In every run of delivery and flow control together: nothing is refused, reads are prefixes, and the bytes put into packets, per stream and in total, are within what the receiver granted. |
| Session.NextInv | crates/oxiquic-transport/src/connection/send.rs:702-789 | Every step of the two together keeps their invariant: what is charged is what was put into packets, what is consumed is what was read. |
| Session.FillStreamFrames | crates/oxiquic-transport/src/connection/send.rs:702-789 | The loop that fills a packet with STREAM frames, with its early exit, is the specification function; what that function places is bounded and maximal by the rows below. |
| SessionFilling.PacketFilled | crates/oxiquic-transport/src/connection/send.rs:702-789 | In every state of every run the packet put on record has at most one frame per stream, in ascending order of the streams, fits the budget, and is full unless every stream got all it may have in it. |
| SessionFilling.PacketFits | crates/oxiquic-transport/src/connection/send.rs:709-712 | Whatever the streams hold, all frames but the last together leave room, the data of the last fits into what is left, and the octets of all of them exceed the room by one frame header at most, within the 24 octets kept for it. |
| SessionFilling.OverheadBound | crates/oxiquic-transport/src/frame.rs:224-240 | Type, identifier, offset and length of a frame take at most 19, 21 or 25 octets, by the size of the data. |
| SessionFilling.VisitServes | crates/oxiquic-transport/src/connection/send.rs:745-789 | After its turn a stream has advanced its queue by one segment, or has nothing fresh it may send, or the packet is full. |
| Session.PlaceCharges | crates/oxiquic-transport/src/connection/send.rs:770-778 | A frame is charged exactly the bytes that were never sent before, nothing for a frame sent again. |
| Session.InsertIdHas | crates/oxiquic-transport/src/connection/mod.rs:159 | Streams are kept, and so visited, in ascending order. |
| DeliveryProof.AckedWasReceived | crates/oxiquic-transport/src/connection/recovery.rs:29-105 | In every run every packet taken as acknowledged had reached the receiver. |
| DeliveryProof.NextGood | crates/oxiquic-transport/src/connection/recovery.rs:29-352 | Every step of the connection keeps the invariant behind the theorems above. |
| DeliveryProof.PayloadRoundTrip | crates/oxiquic-transport/src/connection/recv.rs:441-464 | Every packet payload the sender builds decodes at the receiver to the frames that were recorded for it. |
| DeliveryProof.TransmitGood | crates/oxiquic-transport/src/connection/send.rs:178-333 | Taking frames from any streams and recording them under a fresh number keeps the invariant. |
| DeliveryProof.DeliverGood | crates/oxiquic-transport/src/connection/recv.rs:730-785 | Delivering any packet ever sent, any number of times, is accepted and keeps the invariant. |
| DeliveryProof.DeliverAckGood | crates/oxiquic-transport/src/connection/recovery.rs:29-105 | Applying any ACK ever sent, however late, keeps the invariant. |
| DeliveryProof.TimeoutGood | crates/oxiquic-transport/src/connection/recovery.rs:121-165 | Dropping lost records after re-queueing their frames keeps the invariant. |
| DeliveryProof.ProbeGood | crates/oxiquic-transport/src/connection/recovery.rs:339-352 | Re-queueing a clone of an outstanding packet's frames keeps the invariant. |
| DeliveryProof.LostQueued | crates/oxiquic-transport/src/connection/recovery.rs:121-165 | Loss detection appends to each stream's queue exactly the segments of the packets it drops, oldest packet first, and changes nothing else of the stream. |
| DeliveryProof.ProbeQueued | crates/oxiquic-transport/src/connection/recovery.rs:339-352 | A probe appends the segments of one outstanding packet and keeps its record. |
| Track.TakeIntact | crates/oxiquic-transport/src/stream.rs:131-171 | Taking a segment keeps one stream's bookkeeping: the segment is genuine and every sent byte stays accounted for from every cut on. |
| Track.RequeueIntact | crates/oxiquic-transport/src/stream.rs:113-115 | Queueing any segment ever sent keeps one stream's bookkeeping. |
| Track.ForgetIntact | crates/oxiquic-transport/src/connection/recovery.rs:153-165 | Records may be dropped once their segments are queued. |
| Track.ReceiveIntact | crates/oxiquic-transport/src/stream.rs:233-274 | Receiving any segment ever sent succeeds and keeps one stream's bookkeeping. |
| Track.AllDelivered | crates/oxiquic-transport/src/stream.rs:276-302 | With nothing queued or on its way the receiver has delivered all bytes and buffers nothing. |
| Track.SentDelivered | crates/oxiquic-transport/src/stream.rs:276-302 | With nothing queued and no packet on its way, the receiver holds exactly the bytes that were sent, and knows the end if it was sent, also when there is more to send. |
| Track.NothingForgotten | crates/oxiquic-transport/src/sent_packet.rs:157-261 | Every sent byte is queued or in an outstanding or acknowledged packet. |
| Coverage.Arrive | crates/oxiquic-transport/src/stream.rs:253-265 | The argument behind delivery: a range that replaces a longer one with the same start only gives up bytes that later ranges carry. |
| Coverage.SplitLive | crates/oxiquic-transport/src/stream.rs:137-152 | Splitting a queued segment keeps every byte accounted for from the new cut on. |
| Streams.TakeConserves | crates/oxiquic-transport/src/stream.rs:131-171 | A taken segment is the front of the queue, a split of it with the rest left in place, or the next fresh bytes; nothing is dropped and an empty frame carries the FIN. |
| Streams.TakeFaithful | crates/oxiquic-transport/src/stream.rs:131-171 | Segments taken are slices of what was written; the FIN is sent only with the last byte. |
| Streams.TakeProgress | crates/oxiquic-transport/src/stream.rs:72-77 | With room for a byte a frame is produced exactly when something is pending. |
| Streams.TakeMaximal | crates/oxiquic-transport/src/stream.rs:131-171 | A frame is as large as it can be and never larger than the room: a queued segment goes whole exactly when it fits and fills the room otherwise; fresh data fills the room or is used up; the end goes with the last byte; without room only an end that has no data left can go. |
| Streams.CutUpExact | crates/oxiquic-transport/src/stream.rs:131-171 | Cutting up a whole stream: the frames carry what was written in order and without gaps, all but the last are full, and only the last carries the end. |
| Streams.RecvConsistent | crates/oxiquic-transport/src/stream.rs:233-274 | A genuine segment is never refused and leaves only bytes of the stream in the receiver. |
| Streams.ReadConsistent | crates/oxiquic-transport/src/stream.rs:298-302 | Reads return the next bytes of the stream; a reported end means all was read. |
| Streams.SizeKept | crates/oxiquic-transport/src/stream.rs:235-242 | Once the end is known no accepted frame brings a byte past it. |
| Streams.RecvExact | crates/oxiquic-transport/src/stream.rs:233-274 | Any frame, hostile ones too: refused, and without effect, exactly when it contradicts a known size; otherwise it wakes the application exactly when more can be read or the end was reached just now. |
| Streams.ReadExact | crates/oxiquic-transport/src/stream.rs:298-302 | A read leaves nothing ready, and reports the end exactly when it was delivered and nothing is buffered. |
| Streams.WriteAfterEndExact | crates/oxiquic-transport/src/stream.rs:61-66 | A write is harmless if and only if the end was not sent yet or there is nothing to write; otherwise its bytes start at the announced end and every receiver that knows it refuses them. |
| Streams.ByteAfterEnd | crates/oxiquic-transport/src/stream.rs:61-66 | Such a byte, at an input. |
| Streams.WriteFaithful | crates/oxiquic-transport/src/stream.rs:61-66 | Writing keeps the record of the stream exactly up to the moment the end is sent, also after it was asked for. |
| Streams.FirstFinExact | crates/oxiquic-transport/src/stream.rs:243-248 | The first FIN is always accepted; the receiver stays within the announced size exactly when nothing at or past it was delivered or stays buffered. |
| Streams.EndBelowBuffered | crates/oxiquic-transport/src/stream.rs:243-248 | The boundary, at an input: an end below a buffered byte is accepted. |
| Streams.SendStream.constructor | crates/oxiquic-transport/src/stream.rs:56-58 | A new stream is empty. |
| Streams.SendStream.Write | crates/oxiquic-transport/src/stream.rs:61-66 | Appends to the buffer and remembers the end. |
| Streams.SendStream.Requeue | crates/oxiquic-transport/src/stream.rs:113-115 | Appends to the resend queue. |
| Streams.SendStream.Reset | crates/oxiquic-transport/src/stream.rs:82-88 | A reset stream keeps nothing and has nothing pending. |
| Streams.SendStream.Take | crates/oxiquic-transport/src/stream.rs:131-171 | Computes the specification function, which the lemmas above pin down: conservation, maximal size and progress. |
| Streams.RecvStream.Recv | crates/oxiquic-transport/src/stream.rs:233-274 | The receive method, error cases included, is the specification function. |
| Streams.RecvStream.FlushContiguous | crates/oxiquic-transport/src/stream.rs:276-293 | The flush loop delivers exactly what the specification delivers. |
| Streams.RecvStream.Read | crates/oxiquic-transport/src/stream.rs:298-302 | Hands over all ready bytes and the end flag. |
| Streams.RecvStream.ReadChecked | crates/oxiquic-transport/src/stream.rs:220-225 | After a reset the error code is returned and nothing is taken. |
| Streams.RecvStream.ApplyReset | crates/oxiquic-transport/src/stream.rs:202-206 | A reset drops everything buffered. |
| Reassembly.AcceptAllIsUnion | crates/oxiquic-transport/src/stream.rs:250-293 | After every arrival, in any order and with any overlaps, the held bytes are the union of the received intervals, exactly when no arrival overwrites a byte held nowhere else. |
| Reassembly.LongestPrefix | crates/oxiquic-transport/src/stream.rs:276-293 | Then the read offset is the length of the longest prefix the union covers, and every buffered segment lies beyond it. |
| Reassembly.NeverShorterLossless | crates/oxiquic-transport/src/stream.rs:260-262 | It is enough that no frame is shorter than the buffered one at the same start. |
| Reassembly.AcceptExact | crates/oxiquic-transport/src/stream.rs:253-265 | One call adds exactly its interval if and only if every byte it overwrites is also buffered elsewhere. |
| Reassembly.ShorterReplacesLonger | crates/oxiquic-transport/src/stream.rs:260-262 | A witness: a shorter repeat makes a received byte disappear. |
| Reassembly.FlushShape | crates/oxiquic-transport/src/stream.rs:276-293 | Flushing raises the offset over exactly the contiguous bytes and drops exactly the segments below it. |
| Reassembly.AcceptMatches | crates/oxiquic-transport/src/stream.rs:250-293 | Contents: what is ready and buffered is the stream at those offsets. |
| Reassembly.AcceptSettled | crates/oxiquic-transport/src/stream.rs:276-293 | Between calls nothing deliverable and nothing empty is buffered. |
| CryptoStreams.HandshakePrefix | crates/oxiquic-transport/src/crypto_stream.rs:47-87 | However CRYPTO frames are cut, repeated and reordered, TLS receives a prefix of the handshake, and the longest one that arrived unless an arrival overwrote a byte held nowhere else. |
| CryptoStreams.RecvAllRefines | crates/oxiquic-transport/src/crypto_stream.rs:47-87 | Handing bytes over after each frame or all at the end gives the same bytes. |
| CryptoStreams.CryptoStream.Recv | crates/oxiquic-transport/src/crypto_stream.rs:47-87 | The CRYPTO receive loop is the stream reassembly. |
| CryptoStreams.CryptoStream.TakeSend | crates/oxiquic-transport/src/crypto_stream.rs:112-136 | Sending makes the choice a stream that is never ended makes, so its frames are as large as they can be. |
| CryptoStreams.CryptoStream.EnqueueSend | crates/oxiquic-transport/src/crypto_stream.rs:90-92 | Appends handshake bytes. |
| CryptoStreams.CryptoStream.Requeue | crates/oxiquic-transport/src/crypto_stream.rs:103-105 | Queues a lost segment. |
| CryptoStreams.CryptoStream.HasSendData | crates/oxiquic-transport/src/crypto_stream.rs:97-99 | True exactly when a frame can be taken. |
| SentPackets.OnAckExact | crates/oxiquic-transport/src/sent_packet.rs:176-201 | An ACK removes exactly the outstanding packets it names and reports each once, and a late one does not lower the largest number acknowledged. |
| SentPackets.LargestAckedIs | crates/oxiquic-transport/src/sent_packet.rs:176-180 | After any ACKs, late and repeated ones too, the largest number acknowledged is the greatest they named. |
| SentPackets.AckSummary | crates/oxiquic-transport/src/sent_packet.rs:181-201 | The greatest number newly acknowledged, and whether one of those packets was ack-eliciting, over exactly the packets reported. |
| SentPackets.AckRemovesReceived | crates/oxiquic-transport/src/sent_packet.rs:176-201 | An ACK built from the numbers a peer received, in any order and with repeats, removes exactly those outstanding packets. |
| SentPackets.DetectLostExact | crates/oxiquic-transport/src/sent_packet.rs:213-261 | Loss detection splits the store precisely by the packet and the time threshold. |
| SentPackets.LossThresholds | crates/oxiquic-transport/src/sent_packet.rs:213-250 | Lost means: not above the largest acknowledged number, and three numbers behind it or sent at least the delay ago. |
| SentPackets.LostInOrder | crates/oxiquic-transport/src/sent_packet.rs:213-261 | Lost packets are listed in the order in which they were sent. |
| SentPackets.LossTimerProgress | crates/oxiquic-transport/src/sent_packet.rs:213-261 | The deadline is after now, no survivor can time out earlier, and firing it with the same delay retires a packet. |
| SentPackets.LossTimerArmed | crates/oxiquic-transport/src/sent_packet.rs:213-261 | There is no deadline exactly when no candidate survives. |
| SentPackets.NextLossTimeIsMinimum | crates/oxiquic-transport/src/sent_packet.rs:232-256 | The deadline is the minimum over the surviving candidates. |
| SentPackets.ExpandRanges | crates/oxiquic-transport/src/sent_packet.rs:295-313 | The expansion loop, including where it stops on an underflowing gap. |
| SentPackets.SentPacketStore.OnPacketSent | crates/oxiquic-transport/src/sent_packet.rs:157-159 | Records the packet under its number. |
| SentPackets.SentPacketStore.OnAck | crates/oxiquic-transport/src/sent_packet.rs:176-201 | The two nested loops compute the specified split and summary, whose meaning is in the three rows above. |
| SentPackets.SentPacketStore.DetectLost | crates/oxiquic-transport/src/sent_packet.rs:213-261 | The scan computes the specified split and deadline. |
| SentPackets.SentPacketStore.EarliestAckElicitingTime | crates/oxiquic-transport/src/sent_packet.rs:266-272 | The earliest send time of an ack-eliciting record, if there is one. |
| SentPackets.SentPacketStore.OldestAckElicitingFrames | crates/oxiquic-transport/src/sent_packet.rs:278-283 | The frames of the lowest-numbered record worth probing with, if there is one. |
| Acks.AckAgreement | crates/oxiquic-transport/src/space.rs:157-225 | For any numbers received in any order with repeats, the ACK frame, encoded, decoded and expanded by the peer, names exactly those numbers. |
| Acks.AckFields | crates/oxiquic-transport/src/space.rs:204-225 | Its largest field is the greatest number received, and its delay the one handed in. |
| Acks.InsertCorrect | crates/oxiquic-transport/src/space.rs:157-180 | Insertion keeps the ranges sorted and separated and adds exactly one number. |
| Acks.CanonicalUnique | crates/oxiquic-transport/src/space.rs:157-200 | The ranges are determined by the set of numbers, so the order of arrival does not matter. |
| Acks.ExpandToAck | crates/oxiquic-transport/src/space.rs:204-225 | The peer's expansion restores the ranges, largest first. |
| Acks.ExpandExact | crates/oxiquic-transport/src/sent_packet.rs:295-313 | Any ACK frame, also a malformed one: each range lies the stated gap below the one before it, none starts below zero, and the first gap that reaches below zero ends the list. |
| Acks.AckWellFormed | crates/oxiquic-transport/src/space.rs:204-225 | The ACK frame built can always be encoded. |
| Acks.GapPairs | crates/oxiquic-transport/src/space.rs:204-225 | One gap and length per further range; no subtraction can go below zero. |
| Acks.ReceivedPackets.Insert | crates/oxiquic-transport/src/space.rs:157-180 | The in-place edits, with both merge helpers, compute the specified insertion. |
| Acks.ReceivedPackets.MaybeMergePrev | crates/oxiquic-transport/src/space.rs:182-190 | Merges with the range below if they touch. |
| Acks.ReceivedPackets.MaybeMergeNext | crates/oxiquic-transport/src/space.rs:192-201 | Merges with the range above if they touch. |
| Acks.ReceivedPackets.ToAckFrame | crates/oxiquic-transport/src/space.rs:204-225 | The loop builds the specified frame. |
| Acks.PacketSpace.NextPn | crates/oxiquic-transport/src/space.rs:61-65 | Numbers are handed out in sequence, each once. |
| Acks.PacketSpace.OnAckReceived | crates/oxiquic-transport/src/space.rs:80-85 | Keeps the largest acknowledged number. |
| Acks.PacketSpace.OnPacketReceived | crates/oxiquic-transport/src/space.rs:89-94 | Records the number and whether an ACK is owed. |
| Acks.PacketSpace.BuildAck | crates/oxiquic-transport/src/space.rs:114-121 | An ACK is produced exactly when one is owed, and then no longer owed. |
| FrameLaws.RoundTrip | crates/oxiquic-transport/src/frame.rs:175-576 | Every well-formed frame, followed by anything that does not extend a padding run, decodes to itself and leaves the rest. |
| FrameLaws.ListRoundTrip | crates/oxiquic-transport/src/frame.rs:175-576 | Any list of well-formed frames decodes to the list with adjacent PADDING merged; to itself exactly when no two PADDINGs are adjacent. |
| FrameLaws.DecodeSuffix | crates/oxiquic-transport/src/frame.rs:355-576 | On arbitrary bytes the decoder leaves a proper suffix: it never reads past the end and always consumes. |
| FrameLaws.DecodeEncodeDecode | crates/oxiquic-transport/src/frame.rs:355-576 | Decoding, encoding and decoding again gives the same frame, for ECN ACKs, length-less frames and overlong integers too. |
| FrameLaws.PayloadNormalForm | crates/oxiquic-transport/src/frame.rs:355-576 | Re-encoding a decoded payload decodes to the same frames exactly when no two PADDINGs were read next to each other. |
| FrameLaws.OverlongPaddingSplits | crates/oxiquic-transport/src/frame.rs:358-369 | A witness for its condition: an overlong PADDING type splits a run. |
| FrameForms.EcnAck | crates/oxiquic-transport/src/frame.rs:373-396 | An ACK frame with ECN counts, whatever they are, decodes to the ACK frame with all its ranges. |
| FrameForms.EcnFormIs | crates/oxiquic-transport/src/frame.rs:384-389 | That wire form is the encoding of the ACK frame with another type and the three counts behind it. |
| FrameForms.AnyStream | crates/oxiquic-transport/src/frame.rs:432-452 | All eight STREAM types decode to the frame they stand for: without an offset it is 0, without a length the data is the rest, and the FIN is the lowest bit. |
| FrameForms.DatagramToEnd | crates/oxiquic-transport/src/frame.rs:557-561 | A DATAGRAM frame without a length takes the rest of the payload. |
| FrameForms.FrameExtends | crates/oxiquic-transport/src/frame.rs:355-576 | A frame that says where it ends is read the same, whatever follows it. |
| FrameForms.TruncatedRefused | crates/oxiquic-transport/src/frame.rs:355-576 | No frame that is cut short is accepted, wherever the cut is: the encoding is prefix-free. |
| FrameForms.UnknownRefused | crates/oxiquic-transport/src/frame.rs:568-573 | Every other frame type is refused. |
| FrameForms.ConnectionIdLimits | crates/oxiquic-transport/src/frame.rs:493-520 | NEW_CONNECTION_ID is accepted exactly with 1 to 20 octets of connection ID and retiring none newer than itself. |
| FrameForms.TooManyStreams | crates/oxiquic-transport/src/frame.rs:459-475 | MAX_STREAMS is accepted exactly up to 2^60. |
| FrameForms.EmptyToken | crates/oxiquic-transport/src/frame.rs:421-431 | NEW_TOKEN is accepted exactly with a token that is not empty. |
| FrameForms.IntegerLayout | crates/oxiquic-transport/src/frame.rs:175-326 | The octets of the frames of two and three integers, in the order of section 19 of RFC 9000. |
| FrameForms.LimitLayout | crates/oxiquic-transport/src/frame.rs:175-326 | The octets of the frames of one integer and of none. |
| FrameForms.StreamLimitLayout | crates/oxiquic-transport/src/frame.rs:175-326 | The octets of the limits on streams. |
| FrameForms.DataLayout | crates/oxiquic-transport/src/frame.rs:175-326 | The octets of CRYPTO, NEW_TOKEN, STREAM and DATAGRAM frames. |
| FrameForms.CloseLayout | crates/oxiquic-transport/src/frame.rs:175-326 | The octets of path and close frames. |
| FrameForms.AckLayout | crates/oxiquic-transport/src/frame.rs:175-326 | The octets of ACK frames. |
| FrameForms.ConnectionIdLayout | crates/oxiquic-transport/src/frame.rs:175-326 | The octets of NEW_CONNECTION_ID frames. |
| FrameLaws.DecodeAllConsumes | crates/oxiquic-transport/src/connection/recv.rs:441-464 | The payload loop ends with every byte consumed or with an error. |
| Frames.DecodeFrame | crates/oxiquic-transport/src/frame.rs:355-576 | On any input: progress, well-formed frames only, and a padding run takes every zero that follows. What each wire form decodes to is in the rows on FrameForms. |
| FrameIO.EncodeTo | crates/oxiquic-transport/src/frame.rs:175-326 | The encoder appends exactly the frame's bytes. |
| FrameIO.DecodeFrom | crates/oxiquic-transport/src/frame.rs:355-576 | The cursor-driven decoder computes the specified result and position, for every wire form. |
| FrameIO.GetRanges | crates/oxiquic-transport/src/frame.rs:378-385 | The loop over ACK ranges. |
| Coding.VarintRoundTrip | crates/oxiquic-transport/src/coding.rs:133-176 | Reading undoes writing, whatever follows. |
| Coding.AnyForm | crates/oxiquic-transport/src/coding.rs:133-144 | Every form of an integer is read, also those longer than needed, and one that is cut short is not. |
| Coding.ParseBytes | crates/oxiquic-transport/src/coding.rs:119-127 | Takes exactly the octets asked for, or fails exactly when there are fewer. |
| Coding.EncodeVarint | crates/oxiquic-transport/src/coding.rs:151-176 | The shortest length, announced in the first octet. |
| Coding.ParseVarint | crates/oxiquic-transport/src/coding.rs:133-144 | Consumes one to eight octets and yields less than 2^62. |
| Coding.BigEndianValue | crates/oxiquic-transport/src/coding.rs:203-208 | Truncation keeps the value modulo a power of 256. |
| Coding.Buf.GetU8 | crates/oxiquic-transport/src/coding.rs:89-93 | Reads one octet or fails at the end. |
| Coding.Buf.GetU32 | crates/oxiquic-transport/src/coding.rs:109-113 | Reads four octets, most significant first. |
| Coding.Buf.GetBytes | crates/oxiquic-transport/src/coding.rs:119-127 | Takes a slice or fails without moving. |
| Coding.Buf.GetVarint | crates/oxiquic-transport/src/coding.rs:133-144 | The shift-and-add loop reads the integer. |
| Coding.Sink.PutVarint | crates/oxiquic-transport/src/coding.rs:151-176 | Writes the encoding octet by octet. |
| PacketNumbers.DecodeExact | crates/oxiquic-transport/src/coding.rs:217-240 | Recovery returns the sent number if and only if it is within half a window of the expected one (with the exact border cases). |
| PacketNumbers.PacketNumberRecovery | crates/oxiquic-transport/src/coding.rs:184-240 | The length the sender chooses is always enough under the stated distances. |
| PacketNumbers.LengthShortest | crates/oxiquic-transport/src/coding.rs:184-200 | And it is the shortest: one octet less would not span twice the distance to the last acknowledged number. |
| PacketNumbers.DiffersFromReference | crates/oxiquic-transport/src/coding.rs:230-235 | The decoder differs from the one in Appendix A.3 of RFC 9000 in exactly two cases: the candidate is half a window behind, or it is further behind and moving it up leaves the packet-number space. |
| PacketNumbers.HalfWindowBehind | crates/oxiquic-transport/src/coding.rs:230-235 | The first case, at an input. |
| PacketNumbers.PastLargestNumber | crates/oxiquic-transport/src/coding.rs:230-235 | The second case, at an input: the result is 2^62. |
| PacketNumbers.StaysInRange | crates/oxiquic-transport/src/coding.rs:217-240 | The result is a packet number except in exactly that second case. |
| PacketLaws.CoalescedRoundTrip | crates/oxiquic-transport/src/connection/recv.rs:29-65 | Any list of long packets, with at most one short packet at the end, built into one datagram and padded with zeros, is received as that list with types, connection IDs, numbers, payloads and positions; the keys of a packet may be those that the packets before it installed. |
| PacketLaws.LongRoundTrip | crates/oxiquic-transport/src/packet.rs:113-152 | A long packet with anything behind it parses back exactly when payload and number are at least four octets together; otherwise the receiver reports it truncated, because Length is written before the padding. |
| PacketLaws.ShortRoundTrip | crates/oxiquic-transport/src/packet.rs:174-206 | A short packet parses back with its key phase; a tiny payload gains PADDING only. |
| PacketLaws.RecoversExactly | crates/oxiquic-transport/src/coding.rs:203-240 | The packet-number condition of the round trips, made exact. |
| PacketLaws.KeyPhaseVisible | crates/oxiquic-transport/src/packet.rs:467-500 | The key phase is readable with the header key alone. |
| PacketLaws.OnlyAuthentic | crates/oxiquic-transport/src/packet.rs:374-447 | Nothing is accepted that the cipher does not open, from the octets as they arrived and with the whole unprotected header as associated data. |
| PacketLaws.ReceivedAuthentic | crates/oxiquic-transport/src/connection/recv.rs:66-200 | The same for the receive loop, with the keys of the packet's own type. |
| PacketLaws.LargestSeen | crates/oxiquic-transport/src/connection/recv.rs:29-65 | After any packets the largest number of each space is the greatest received in it. |
| PacketLaws.VersionRefused | crates/oxiquic-transport/src/packet.rs:374-405 | A packet of another version is refused with that version. |
| PacketLaws.LongCidRefused | crates/oxiquic-transport/src/packet.rs:321-362 | A connection ID of more than 20 octets is refused. |
| PacketLaws.FirstOctets | crates/oxiquic-transport/src/packet.rs:113-206 | The first octets of long and short packets. |
| PacketLaws.InitialHeaderOctets | crates/oxiquic-transport/src/packet.rs:113-152 | The octets of an Initial header, field by field. |
| PacketLaws.FinishKeepsHead | crates/oxiquic-transport/src/packet.rs:266-284 | Header protection leaves every header octet but the protected bits. |
| PacketLaws.HeaderParses | crates/oxiquic-transport/src/packet.rs:321-362 | A long header parses whatever its protected bits look like. |
| Packets.TwoStepsAreOne | crates/oxiquic-transport/src/packet.rs:467-560 | Stripping protection and then decrypting equals the one-step parser, on all inputs. |
| Packets.FinishRoundTrip | crates/oxiquic-transport/src/packet.rs:221-284 | What is sealed and protected is unprotected and opened, whatever follows in the datagram. |
| Packets.UnmaskFinish | crates/oxiquic-transport/src/packet.rs:575-597 | Removing protection restores the packet: the sample lies outside what is masked. |
| Packets.ParseLong | crates/oxiquic-transport/src/packet.rs:374-405 | A parsed packet takes at least one octet and none past the datagram. |
| HeaderProtection.MaskedTwice | crates/oxiquic-crypto/src/quic.rs:97-135 | Masking is an involution. |
| HeaderProtection.MaskFirstLaws | crates/oxiquic-crypto/src/quic.rs:113-130 | The form bit and the bits above the protected ones survive masking. |
| HeaderProtection.MaskedExact | crates/oxiquic-crypto/src/quic.rs:97-135 | Bit by bit: the low four or five bits of the first octet and all bits of the packet number are flipped where the mask has a one, and nothing else. |
| HeaderProtection.XorBit | crates/oxiquic-crypto/src/quic.rs:97-135 | The operation on integers is the exclusive or of their bits. |
| HeaderProtection.XorInPlace | crates/oxiquic-crypto/src/quic.rs:97-135 | The in-place loop masks the first octet and exactly the octets of the packet number. |
| PacketIO.BuildLongPacket | crates/oxiquic-transport/src/packet.rs:113-152 | Appends the specified packet to the datagram. |
| PacketIO.BuildShortPacket | crates/oxiquic-transport/src/packet.rs:174-206 | Appends the specified packet to the datagram. |
| PacketIO.FinishPacket | crates/oxiquic-transport/src/packet.rs:221-284 | Pads, seals and protects what was written so far; earlier packets are untouched. |
| PacketIO.ReadLongHeader | crates/oxiquic-transport/src/packet.rs:321-362 | The cursor-driven header parser. |
| PacketIO.UnprotectAndDecrypt | crates/oxiquic-transport/src/packet.rs:566-620 | Works in place and changes nothing outside the packet. |
| PacketIO.ParseLongPacket | crates/oxiquic-transport/src/packet.rs:374-405 | All results and errors of the specification; octets behind the packet are untouched. |
| PacketIO.ParseShortPacket | crates/oxiquic-transport/src/packet.rs:415-447 | All results and errors of the specification. |
| PacketIO.ReceiveDatagram | crates/oxiquic-transport/src/connection/recv.rs:29-65 | The receive loop, which decrypts in place and takes up new keys between packets, computes the packets of the datagram as it arrived. |
| FlowControl.FlowSafety | crates/oxiquic-transport/src/flow_control.rs:31-253 | In every run, with limit updates lost, repeated and reordered, the connection and every stream stay within the granted limit, and unconsumed data within the window. |
| FlowControl.FlowConservation | crates/oxiquic-transport/src/flow_control.rs:59-144 | In every run the connection's sent and consumed counters are the sums of the streams'; re-sent data is charged nothing. |
| FlowControl.ReportsIncrease | crates/oxiquic-transport/src/flow_control.rs:71-78 | In every run the limits reported as blocked strictly increase. |
| FlowControl.BlockedReported | crates/oxiquic-transport/src/flow_control.rs:71-78 | In every run a used-up limit is reported when asked for, exactly if it was not reported before, on the connection and on every stream. |
| FlowControl.UpdateOpensHalf | crates/oxiquic-transport/src/flow_control.rs:204-214 | After an update at least half a window is open, and an update is made exactly when less was. |
| FlowControl.FullWindowRenewed | crates/oxiquic-transport/src/flow_control.rs:204-214 | A fully consumed window is renewed exactly when it is at least 2. |
| FlowControl.WaitingRenewed | crates/oxiquic-transport/src/flow_control.rs:204-214 | A sender out of credit with everything consumed gets a fresh limit exactly when less than half a window was granted in updates it has not seen. |
| FlowControl.StalledStays | crates/oxiquic-transport/src/connection/send.rs:652-697 | Updates are not recorded for re-sending: on a stalled connection, in every continuation into which no update already sent arrives, no byte more is sent, consumed or granted. |
| FlowControl.LostUpdateStalls | crates/oxiquic-transport/src/connection/send.rs:652-697 | Losing one MAX_DATA reaches such a stall, for every window from 2 on, and in every continuation without it nothing past the first window is sent. |
| FlowControl.StalledStreamStays | crates/oxiquic-transport/src/connection/send.rs:663-676 | The same for one stream, while the connection goes on. |
| FlowControl.LostStreamUpdateStalls | crates/oxiquic-transport/src/connection/send.rs:663-676 | Losing one MAX_STREAM_DATA stalls a stream for good, however large the connection window. |
| FlowControl.FrozenStays | crates/oxiquic-transport/src/flow_control.rs:204-214 | With half a window or more in updates the sender has not seen, a limit is not renewed, whatever is consumed. |
| FlowControl.SendFlowControl.OnMaxData | crates/oxiquic-transport/src/flow_control.rs:44-49 | Limits only grow. |
| FlowControl.SendFlowControl.OnDataSent | crates/oxiquic-transport/src/flow_control.rs:59-61 | Charges new bytes. |
| FlowControl.SendFlowControl.TakeBlocked | crates/oxiquic-transport/src/flow_control.rs:71-78 | Reports a limit once. |
| FlowControl.StreamSendFlow.OnMaxStreamData | crates/oxiquic-transport/src/flow_control.rs:112-117 | Limits only grow. |
| FlowControl.StreamSendFlow.RecordHighOffset | crates/oxiquic-transport/src/flow_control.rs:136-144 | Returns how much of the offset is new. |
| FlowControl.StreamSendFlow.TakeBlocked | crates/oxiquic-transport/src/flow_control.rs:154-161 | Reports a limit once. |
| FlowControl.RecvFlowControl.OnDataConsumed | crates/oxiquic-transport/src/flow_control.rs:189-191 | Counts what the application consumed. |
| FlowControl.RecvFlowControl.MaybeUpdate | crates/oxiquic-transport/src/flow_control.rs:204-214 | The update rule on the object. |
| FlowControl.StreamRecvFlow.OnDataConsumed | crates/oxiquic-transport/src/flow_control.rs:237-239 | Counts what the application consumed. |
| FlowControl.StreamRecvFlow.MaybeUpdate | crates/oxiquic-transport/src/flow_control.rs:242-253 | The update rule on the object. |
| Rtt.EstimateBounds | crates/oxiquic-transport/src/recovery.rs:98-127 | After any samples and any claimed ACK delays: min is the smallest sample, and the smoothed value and the variation stay between the smallest and the largest. |
| Rtt.MovesByItsShare | crates/oxiquic-transport/src/recovery.rs:98-127 | Every sample after the first moves the smoothed value one eighth and the variation one quarter of the way, up to rounding, towards the sample less the capped ACK delay, which is left out where it would go below the minimum. |
| Rtt.FirstSample | crates/oxiquic-transport/src/recovery.rs:98-110 | The first sample is taken as it is, with half of it as the variation. |
| Rtt.Converges | crates/oxiquic-transport/src/recovery.rs:98-127 | Under equal samples the smoothed value closes in on them geometrically. |
| Rtt.LossDelayFloor | crates/oxiquic-transport/src/recovery.rs:132-136 | The loss delay is at least the smallest, latest and smoothed round trip and the granularity. |
| Rtt.TimersExact | crates/oxiquic-transport/src/recovery.rs:132-144 | Loss delay and probe timeout are those of section 6 of RFC 9002, up to rounding, with one millisecond as the granularity. |
| Rtt.PtoBounds | crates/oxiquic-transport/src/recovery.rs:142-144 | The probe timeout lies between the smallest round trip and five times the largest, plus granularity and ACK delay. |
| Rtt.LossIsNotPremature | crates/oxiquic-transport/src/sent_packet.rs:213-261 | A packet declared lost is three numbers behind an acknowledged one or at least one smallest round trip old. |
| Rtt.BackoffDoubles | crates/oxiquic-transport/src/recovery.rs:220-231 | Each timeout in a row doubles the probe interval up to 2^20. |
| Rtt.RttEstimator.Update | crates/oxiquic-transport/src/recovery.rs:98-127 | The estimator object computes the specified update. |
| Rtt.LossDetection.EarliestLossTime | crates/oxiquic-transport/src/recovery.rs:196-212 | The earliest deadline over the spaces; of equal ones the first. |
| Rtt.LossDetection.SetLossTime | crates/oxiquic-transport/src/recovery.rs:189-191 | Sets one space's deadline. |
| Rtt.LossDetection.PtoDeadline | crates/oxiquic-transport/src/recovery.rs:227-231 | The deadline with backoff. |
| Rtt.LossDetection.IncreasePtoCount | crates/oxiquic-transport/src/recovery.rs:220-222 | A timeout adds one to the backoff. |
| Rtt.LossDetection.ResetPtoCount | crates/oxiquic-transport/src/recovery.rs:215-217 | Resets the backoff. |
| Congestion.WindowFloor | crates/oxiquic-transport/src/congestion.rs:27-171 | In every event run NewReno's window is at least two datagrams. |
| Congestion.LossExact | crates/oxiquic-transport/src/congestion.rs:140-161 | Exactly what a loss does: in a new episode recovery starts now, and window and threshold are half the old window or two datagrams, whichever is more; otherwise only the bytes are released. The window is never raised. |
| Congestion.OneReduction | crates/oxiquic-transport/src/congestion.rs:152-161 | After a reduction no run of losses of packets sent by then reduces the window again, absent persistent congestion. |
| Congestion.AvoidanceGrowth | crates/oxiquic-transport/src/congestion.rs:118-134 | In congestion avoidance n packets of B bytes grow a window w by at most n + datagram * B / w. |
| Congestion.AvoidanceFloor | crates/oxiquic-transport/src/congestion.rs:118-134 | ... and by at least n when none was sent before recovery. |
| Congestion.AvoidanceShare | crates/oxiquic-transport/src/congestion.rs:118-134 | ... and, with W the window at the end, by at least datagram * B / W - n: one datagram per window, from both sides. |
| Congestion.SlowStartGrowth | crates/oxiquic-transport/src/congestion.rs:118-134 | In slow start the window grows by exactly the bytes acknowledged. |
| Congestion.RecoveryFreezes | crates/oxiquic-transport/src/congestion.rs:118-134 | Packets sent before recovery started do not open the window. |
| Congestion.PersistentRestarts | crates/oxiquic-transport/src/congestion.rs:166-172 | Persistent congestion leaves two datagrams and slow start, and the next loss is a new episode. |
| Congestion.InitialWindowIs | crates/oxiquic-transport/src/congestion.rs:24-37 | The initial window, by the size of a datagram. |
| Congestion.NewRenoController.OnPacketsAcked | crates/oxiquic-transport/src/congestion.rs:118-134 | The loop computes the specified state. |
| Congestion.NewRenoController.OnPacketsLost | crates/oxiquic-transport/src/congestion.rs:140-161 | Computes the specified state, which the row on LossExact pins down. |
| Congestion.NewRenoController.OnPersistentCongestion | crates/oxiquic-transport/src/congestion.rs:166-172 | Collapses the window to the minimum and restarts slow start. |
| Congestion.CubicController.OnPacketsAcked | crates/oxiquic-transport/src/cubic.rs:163-195 | The loop computes the specified state, for any curve. |
| Congestion.CubicController.OnPacketsLost | crates/oxiquic-transport/src/cubic.rs:200-222 | Computes the specified state, for any reduction. |
| Congestion.CubicLossBounds | crates/oxiquic-transport/src/cubic.rs:200-222 | Exactly what a loss does to CUBIC: in a new episode the window becomes the peak of the next curve, is reduced but not below two datagrams, and the curve starts anew; otherwise only the bytes are released. |
| Congestion.CubicAckExact | crates/oxiquic-transport/src/cubic.rs:163-195 | One packet acknowledged: nothing in recovery, its bytes in slow start, then the curve from its first packet on, or a share of a datagram where the curve is below. |
| Congestion.CubicPersistent | crates/oxiquic-transport/src/cubic.rs:226-236 | Persistent congestion: two datagrams, slow start and no memory of a peak. |
| InFlight.PacketsConserved | crates/oxiquic-transport/src/sent_packet.rs:157-261 | In every run without a Retry each recorded packet is in exactly one of outstanding, acknowledged and lost, and the controller's bytes in flight are those of the outstanding in-flight packets. |
| InFlight.BytesConserved | crates/oxiquic-transport/src/cc_dispatch.rs:86-145 | In every run, Retry included, for NewReno, CUBIC and BBR: bytes in flight are at least those outstanding, and equal to them if and only if no packet was ever sent under the number of a record still in flight. |
| InFlight.RetryLeaks | crates/oxiquic-transport/src/connection/mod.rs:850-865 | A Retry restarts the Initial numbers and keeps the records: if record 0 is in flight, the next Initial packet replaces it, and in every continuation the controller counts at least its bytes more than is outstanding. |
| InFlight.RetryRun | crates/oxiquic-transport/src/connection/mod.rs:850-865 | A run from a new connection that does so: an Initial packet, a Retry, an Initial packet, and anything. |
| InFlight.NextBalanced | crates/oxiquic-transport/src/connection/recovery.rs:29-178 | Each step changes the difference between counted and outstanding bytes by exactly the in-flight bytes of the record it replaces, so only a packet sent under such a number does. |
| InFlight.LeakExact | crates/oxiquic-transport/src/connection/mod.rs:850-865 | Over every continuation the difference never falls, and stays exactly when no such record is replaced. |
| InFlight.LateAckCreditsNothing | crates/oxiquic-transport/src/connection/recovery.rs:48-52 | An ACK of packets no longer outstanding changes neither the controller nor the records. |
| InFlight.AckReleases | crates/oxiquic-transport/src/cc_dispatch.rs:105-128 | Every controller releases exactly the bytes acknowledged; no subtraction saturates. |
| InFlight.LossReleases | crates/oxiquic-transport/src/cc_dispatch.rs:134-160 | Every controller releases exactly the bytes lost. |
| InFlight.SendBalanced | crates/oxiquic-transport/src/connection/send.rs:296-331 | Numbering, recording and charging a packet keeps the difference exactly when no in-flight record has its number; MTU probes are not charged. |
| InFlight.AckBalanced | crates/oxiquic-transport/src/connection/recovery.rs:48-85 | Processing any ACK keeps the balance. |
| InFlight.LossBalanced | crates/oxiquic-transport/src/connection/recovery.rs:121-178 | Loss handling, with persistent congestion, keeps the balance. |
| InFlight.PunishExact | crates/oxiquic-transport/src/connection/recovery.rs:138-178 | A controller is told the in-flight bytes lost and the newest send time among them, and of persistent congestion exactly when they span more than three timeouts. |
| InFlight.NotInFlight | crates/oxiquic-transport/src/connection/recovery.rs:138-178 | Lost packets that were not in flight leave the controller as it is. |
| InFlight.RenoLoss | crates/oxiquic-transport/src/connection/recovery.rs:138-178 | From lost packets to NewReno's window: halved, or two datagrams if the losses span more than three timeouts. |
| InFlight.LossAfterAck | crates/oxiquic-transport/src/connection/recovery.rs:48-105 | An acknowledgement that settles a packet, and a timer that expires, leave no packet past a threshold; one that settles nothing declares nothing lost. |
| Bbr.PhaseMachine | crates/oxiquic-transport/src/bbr.rs:608-719 | In every reachable state: outside Startup the pipe was found full, the ProbeBW indices agree, are below 8 and select the pacing gain, the window has its floor, and the bandwidth estimate respects its bound. |
| Bbr.RunAdvances | crates/oxiquic-transport/src/bbr.rs:517-573 | Along every run: Startup is never re-entered, the bandwidth estimate never falls, and after the first loss with an estimate it never changes again. |
| Bbr.PhaseExact | crates/oxiquic-transport/src/bbr.rs:517-634 | Exactly when each phase ends: three rounds without a quarter more bandwidth, in flight down to the bandwidth-delay product, one round trip per step of the cycle, ten seconds without a new minimum, 200 ms at four datagrams. |
| Bbr.PipeExact | crates/oxiquic-transport/src/bbr.rs:590-601 | The pipe is found full at the third acknowledgement in a row that brings less than a quarter more. |
| Bbr.RtPropIsMinimum | crates/oxiquic-transport/src/bbr.rs:535-544 | In every run the minimum round trip is that of all packets acknowledged so far; it never expires. |
| Bbr.BtlBwIsMaximum | crates/oxiquic-transport/src/bbr.rs:546-557 | In every run, until the first loss freezes it, the bandwidth estimate is the greatest measured so far: the window of the filter never lowers it. |
| Bbr.LossExact | crates/oxiquic-transport/src/bbr.rs:787-827 | Exactly what a loss does; the bound on what is in flight counts the lost bytes twice. |
| Bbr.GainsBalance | crates/oxiquic-transport/src/bbr.rs:37-43 | The gains of the cycle are 1 on average. |
| Bbr.ProbeRttLasts | crates/oxiquic-transport/src/bbr.rs:687-712 | ProbeRTT is held for at least 200 ms. |
| Bbr.EveryAckIsARound | crates/oxiquic-transport/src/bbr.rs:578-586 | The round counter counts acknowledgement events. |
| Bbr.WindowRecomputed | crates/oxiquic-transport/src/bbr.rs:758-775 | Every acknowledgement computes the window anew: the state after it does not depend on the window before it, nor on the window saved for the end of ProbeRTT, but for that saved window itself. |
| Bbr.FilterOrdered | crates/oxiquic-transport/src/bbr.rs:290-312 | The maximum filter's slots stay in order. |
| Bbr.FilterMaximum | crates/oxiquic-transport/src/bbr.rs:290-312 | An old maximum does not survive in the filter; a recent one does. |
| Bbr.AckedOk | crates/oxiquic-transport/src/bbr.rs:517-573 | An acknowledgement keeps the invariant and follows an edge of the phase diagram. |
| Bbr.LostOk | crates/oxiquic-transport/src/bbr.rs:787-827 | A loss keeps the invariant and the phase. |
| BbrController.Controller.OnPacketsAcked | crates/oxiquic-transport/src/bbr.rs:517-573 | The object's eight steps compute the specified state. |
| BbrController.Controller.UpdateState | crates/oxiquic-transport/src/bbr.rs:608-634 | The transitions on the object. |
| BbrController.Controller.HandleProbeRtt | crates/oxiquic-transport/src/bbr.rs:687-712 | The ProbeRTT logic on the object. |
| BbrController.Controller.OnPacketsLost | crates/oxiquic-transport/src/bbr.rs:787-827 | The loss reaction on the object. |
| Params.ParamsRoundTrip | crates/oxiquic-transport/src/params_codec.rs:38-186 | Any parameters decode to themselves cut to 62 bits; unchanged exactly when every value fits. |
| Params.UnknownIgnored | crates/oxiquic-transport/src/params_codec.rs:129-186 | A parameter with an unknown identifier, in any encoding, put between any two parameters changes neither values nor errors. |
| Params.ScalarExact | crates/oxiquic-transport/src/params_codec.rs:143-152 | A value must be one integer in any form; octets after it, or too few, are errors. |
| Params.ExponentCut | crates/oxiquic-transport/src/params_codec.rs:167-169 | The exponent is cut to an octet, and nothing else changes. |
| Params.FlagExact | crates/oxiquic-transport/src/params_codec.rs:172-182 | The flag must be empty; an identifier that is not known has no effect. |
| Params.OnlyWhole | crates/oxiquic-transport/src/params_codec.rs:129-186 | Only octets that split into whole parameters decode. |
| Params.FirstOctets | crates/oxiquic-transport/src/params_codec.rs:38-110 | The octets of the first parameters. |
| Params.MiddleOctets | crates/oxiquic-transport/src/params_codec.rs:38-110 | The octets of the limits on streams. |
| Params.LastOctets | crates/oxiquic-transport/src/params_codec.rs:38-110 | The octets of the last parameters. |
| Params.DefaultOctets | crates/oxiquic-transport/src/params_codec.rs:38-110 | Zeros that are the default are not sent; the other defaults are. |
| Params.Defaults | crates/oxiquic-transport/src/params_codec.rs:129-132 | What a peer that sends nothing has. |
| Params.DecodeTriples | crates/oxiquic-transport/src/params_codec.rs:129-186 | Decoding an encoded list has the effect of the list. |
| Params.EncodeParams | crates/oxiquic-transport/src/params_codec.rs:38-110 | The encoder writes the specified octets. |
| Params.DecodeParams | crates/oxiquic-transport/src/params_codec.rs:129-186 | The decoding loop, with all its errors. |

## Left out

- Key derivation, the AEADs and the mask functions themselves; TLS.
- The handshake state machine, connection IDs, path validation, migration, key update beyond reading the key phase, stateless reset, Version Negotiation, and the contents of Retry packets.
- 0-RTT early data: the source sends it without a record, so the delivery theorems do not speak of it.
- RESET_STREAM and STOP_SENDING between the two ends: the delivery machine has no resets; the reset methods of the two stream halves are modelled.
- The composition of delivery with packet protection: the delivery machine carries encoded frames, and the packet theorems carry payloads.
- Deciding when to send (pacing, the congestion window, anti-amplification) and coalescing: the machines allow any choice, and the continuations of the progress theorems send only when nothing is outstanding.
- In the composition with flow control: CRYPTO frames, which have no credit, and the frames other than STREAM, whose octets are taken off the room of a packet. Each packet-number space has its own CRYPTO stream; the delivery machine is one space.
- Packet numbers end at 2^62 - 1: the progress theorems ask for as many numbers as bytes and frames are owed.
- SessionLimits.CompletesToo: sufficient only; when a frozen connection limit has room for exactly the unsent data, whether an end without data still goes out depends on the order of the stream identifiers.
- The congestion dispatcher is modelled on values, not as an object: what it does is route each event.
- The curve of CUBIC and the rates, products and limits of BBR in floating point are parameters of each step, so the theorems hold for whatever they return; pacing rates are not modelled.
- Bbr.PhaseMachine: does not model the delivery-rate estimator, because its results enter only as the bandwidth of an event.
- Machine-integer overflow: numbers are unbounded, and the codec theorems state the 62-bit limits they need.
- Packets that cannot be built because keys are missing; DATAGRAM queues; idle and keep-alive timers; MTU discovery beyond the accounting of its probes.
- The endpoint, the asynchronous layers and HTTP/3.
- A Retry in the delivery machine: it restarts the Initial packet numbers and the Initial CRYPTO stream; its effect on the accounting is in `InFlight`.
