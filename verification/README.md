# ngtcp2 transport core in Dafny

A model of the transport core of ngtcp2, an implementation of draft-ietf-quic-transport-08, and proofs about it.
`dafny verify dfyconfig.toml` checks all of it. The layouts on the wire are those of the draft; the rules they serve are
those of RFC 9000, sections 2.2 (ordered delivery), 4.1, 4.5 and 4.6 (flow control, final size, stream limits),
13.2 (acknowledgements), 16 (variable-length integers), 17.1 (packet numbers), 18 and 19 (parameters and frames).

The main results:

* **From one application to the other.** Any run of a connection goes on up to the first event that it answers with an error.
  In all its states the accounts of flow control balance over all streams, closed ones included; the frames written on a
  stream tile what the application sent; the gap lists say exactly which offsets the acknowledged and the received frames
  carry; closed streams are complete; and the peer never has more than `initial / 4 + 1` streams of a kind
  (`History.RunKeeps`, and `ConnectionRun.RunAll` for the code). Of the frames written on a stream, whatever arrives, in any
  order and any number of times, gives the peer's application a prefix of what was sent, each byte once and in order, and the
  end only with the last byte. If the peer gave enough credit, it accepts all of them exactly if none is empty without fin;
  and then its application gets everything once every byte and the end have arrived (`ConnectionRun.Transfer`, on top of
  `StreamReceive.ReceiveAll` and the reorder buffer). In the same runs the connection's offsets are the sums over all streams
  ever opened (`RunSums.RunTotals`), the ID of a closed stream is never used again (`RunIds.RunSpent`), a stream on which
  nothing is left to do is closed, unless the application has reset its sending side or written an empty end
  (`Closing.RunCloses`), and the peer may open one more stream for each that was closed, once it has used its first ID
  (`Growth.RunReplenished`).
* **Two endpoints.** A client and a server that hear nothing but what the other has said, late, repeated or never: in every
  state of every run, a STREAM frame that one has written is accepted by the other, whatever the credit, unless it is empty
  without fin or brings something new on a stream that was reset before; and the same for RST_STREAM (`PeerRun.RunAccepts`,
  `PeerRun.RunResets`). The reason is an invariant: what one may send is covered by what the other has granted, over all
  streams and for the connection (`PeerRun.RunLinked`). The data of a frame that is accepted is taken in, with this frame or
  an earlier one, unless reading was stopped, the stream was reset, or its ID was only claimed (`PeerDelivery.RunLands`); and
  a stream that one endpoint has closed, and the other did not reset, was finished by the other and received to its last byte
  (`PeerDelivery.RunClosed`). Once an announcement has arrived, the sender may use exactly what the receiver has to give
  (`PeerCredit.DataReaches`, `PeerCredit.StreamReaches`, `PeerCredit.IdsReach`).
* **Acknowledgements.** Over any run, from any first packet number, and up to a packet or frame that ends the connection, no
  ACK frame acknowledges a packet that was not received; and every received packet is tracked or was acknowledged, unless a
  packet arrived at a full tracker or a frame was built for more than 256 runs, for which more than 256 different packets
  must arrive (`AckRun.RunKeeps`, `AckRun.RunAll`). What these two events lose is stated exactly (`AckRun.DroppedIff`,
  `AckRun.ForgottenIff`), with a run that loses a packet (`AckRun.PacketForgotten`). A frame is due exactly if a packet has
  called for one since the last, and then says all it can, with the right delay (`AckRun.RunActive`, `AckRun.SendAnswers`).
* **Retransmission.** Over any run, from any first packet number, the list and the heap hold the same packets, the bytes in
  flight add up, every packet listed was sent or took over frames of one that was, under a number of its own, and none is
  retransmitted more than twice; a packet is listed for as long as it was neither acknowledged nor has expired
  (`RetransmissionRun.RunAll`, `RetransmissionRun.RunHolds`). As long as no packet was sent in part or moved for lack of room
  the list descends, and an ACK frame removes exactly what it acknowledges (`RetransmissionRun.RunAcked`). The largest
  acknowledged number is the initial one, or was acknowledged by some event; so a peer that has seen all that was taken to
  have arrived at first recovers the number of the next packet, and one that has not recovers it under an exact condition
  (`RetransmissionRun.NextRecovered`). Every list of distinct numbers that does not descend has a frame that removes nothing
  although it acknowledges an entry (`AckWalk.AscentBlocks`). If the timer is never late, packets are sent again 1 and 3
  seconds after the first time, and the connection gives up after 7 (`Timing.RunOnTime`, `Timing.Lone`); and nothing that
  still has to be sent is forgotten before it is acknowledged (`Survival.RunSurvives`).
* **Codec.** Every frame, every packet of frames and the transport parameters of each handshake message are read back as they
  were written; the two-pass decoders agree with one-pass definitions on every input (`Frames.RoundTrip`,
  `Packets.PacketRoundTrip`, `FrameReader.DecodeFrame`, `TransportParams.RoundTrip`, `ParamsCodec.DecodeParams`). A truncated
  packet number is recovered exactly under a condition on the expected number (`PacketNumber.RecoveredExactly`). The octets
  are those of the draft (`Wire.WrittenOctets`, `ParamsWire.MessageOctets`, `Varint.TagIsLog`).
* **Hash table.** It is a finite map, through collisions and doublings (`StreamMap.StreamTable`).

Objects of the source that change are classes here, their buffers, heaps, rings and tables are arrays; linked lists are
sequence fields. Specification functions are in modules of their own (`Ranges`, `HeapOrder`, `AckWalk`, `Streams`, `Ledger`,
`Steps`, `Machine`, `History`, `Peers`, `PeerDelivery`, `PeerCredit`, `Closing`, `Growth`, `Effects`, `Listing`, `Timing`,
`Survival`, `Frames`, `Wire`, `HashChains`, `TransportParams`, `ParamsWire`); the methods are proved against them. The class
`Connection.Conn` refines the states of `Machine`, whose steps keep the invariant of `Ledger`. A stream has two models: the
class `StreamReceive.RxStrm` with the real buffers, and the value `Streams.Strm` that the connection keeps of it. Both decide
on a frame by the same function, `StreamReceive.Decide`, and `Streams.ReplayMirrored` says that they stay in step.

Where the code does not do what one would expect, it is modelled as it is, and the exact condition is proved:

* `ngtcp2_idtr_open` can leave an empty gap, after which `ngtcp2_idtr_first_gap` reports a used ID: exactly if the claimed ID
  is the last one of a gap with several (`IdTracker.ClaimNoEmptyGap`, `IdTracker.FirstGapCanBeUsed`).
* A repeated RST_STREAM is refused unless its final offset is the last one received (`Machine.RepeatedReset`).
* Writing no data without fin produces a STREAM frame that every receiver refuses; no other written frame is refused for its
  form (`Machine.WrittenBlank`).
* A STREAM frame that contradicts the final offset is refused after the connection was charged for it
  (`Connection.Conn.RecvStream`).
* A RST_STREAM frame that overtakes data makes the data an error: the last offset received is not moved to the final one
  (`Peers.LateAfterReset`, `PeerRun.RunAccepts`).
* Raising a stream's limit wraps around in 64 bits for huge amounts; the accounts still balance exactly if the sum does not
  wrap around to less than what was announced (`Steps.RaisedLimitGrows`, `Machine.ConsumeKeeps`).
* Transport parameters overwrite the send limit: the accounts still balance exactly if the new limit is not below what was
  sent (`Machine.ParamsKeep`). If it is below, the credit left wraps around and data is sent all the same
  (`Machine.WrittenWithin`, `Machine.OverrunWrites`).
* A server takes the number before its first one to be acknowledged, and so would send its first number in 8 bits. A receiver
  that has seen nothing recovers that exactly if the number is below 256, but from the 32 bits of a handshake packet exactly
  if it is below 2^32 (`PacketNumber.ServerWidth`, `PacketNumber.FirstRecovered`).
* A STOP_SENDING frame that overtakes the first data of its stream makes the receiver accept and ignore the data
  (`PeerDelivery.StopLoses`).
* A limit on stream IDs that is not an ID of its kind is announced as a limit for the other kind (`PeerRun.RunTellable`).
* The 15 bytes set aside for a STREAM frame besides its data are not always enough: a frame may take 25, and then a packet
  with room for data is refused (`Machine.OverheadBound`, `Machine.RefusedOnlyLarge`).
* A stream whose sending side the application resets when the other side is done stays open with nothing left to do
  (`Closing.StopWritingLeaves`).
* A packet sent in part, or moved to the head of the list for lack of room, can break the order of the list
  (`Backoff.OrderKept`), on which the processing of ACK frames depends (`AckWalk.AscentBlocks`).
* The tracker of received packets forgets packets that were never acknowledged (`AckRun.PacketForgotten`).
* The decoder keeps 255 ACK blocks, the builder makes up to 256 (`Frames.RoundTrip`).
* A unicast address of zeros does not replace the one that was there (`TransportParams.RoundTrip`).

## Model

| member | source | states |
|---|---|---|
| `Ranges.Intersect` | lib/ngtcp2_range.c:33-42 | Holds exactly the common offsets; an empty intersection is [0, 0). |
| `Ranges.Cut` | lib/ngtcp2_range.c:50-57 | The two parts hold exactly what is in the outer and not in the inner range, and do not touch. |
| `Ranges.SubtractCovers` | lib/ngtcp2_gaptr.c:87-122 | Cutting a range out of a gap list removes exactly its offsets. |
| `Ranges.SubtractSorted` | lib/ngtcp2_gaptr.c:87-122 | The list stays sorted, separated and free of empty gaps. |
| `Ranges.CutGap` | lib/ngtcp2_gaptr.c:99-115 | A partly covered gap is cut in place into what is left of it. |
| `Ranges.PushTurn` | lib/ngtcp2_gaptr.c:93-119 | One turn of the walk over the gaps keeps the part behind the cursor cut and the part ahead untouched; it stops only when the rest is not affected. |
| `Ranges.Canonical` | lib/ngtcp2_gaptr.c:87-122 | The set of missing offsets determines the list. |
| `Ranges.FirstOffsetIsLeastAll` | lib/ngtcp2_gaptr.c:124-129 | The first gap offset is the least offset missing. |
| `GapTracker.Gaptr.constructor` | lib/ngtcp2_gaptr.c:49-60 | Everything is missing. |
| `GapTracker.Gaptr.Push` | lib/ngtcp2_gaptr.c:87-122 | Exactly the pushed offsets are no longer missing, and the list is the canonical one. |
| `GapTracker.Gaptr.FirstGapOffset` | lib/ngtcp2_gaptr.c:124-129 | The least offset missing. |
| `IdTracker.ClaimUses` | lib/ngtcp2_idtr.c:80-122 | Claiming an ID makes it used and changes no other. |
| `IdTracker.ClaimValid` | lib/ngtcp2_idtr.c:80-122 | The gap list stays valid. |
| `IdTracker.ClaimNoEmptyGap` | lib/ngtcp2_idtr.c:93-119 | A claim leaves no empty gap if and only if it does not take the last ID of a longer gap. |
| `IdTracker.Idtr.constructor` | lib/ngtcp2_idtr.c:46-58 | No ID is used. |
| `IdTracker.Idtr.Open` | lib/ngtcp2_idtr.c:80-122 | Refuses exactly the IDs claimed before; otherwise claims this one and no other. |
| `IdTracker.Idtr.IsOpen` | lib/ngtcp2_idtr.c:124-143 | True exactly for the claimed IDs. |
| `IdTracker.Idtr.FirstGap` | lib/ngtcp2_idtr.c:145-150 | All IDs below are used; this one is unused exactly if the first gap is not empty. |
| `IdTracker.FirstGapCanBeUsed` | lib/ngtcp2_idtr.c:80-150 | After claiming 2, 1 and 0 the first gap is reported at 2, which is used. |
| `ReorderBuffer.Rob.constructor` | lib/ngtcp2_rob.c:68-81 | Nothing is stored and everything is missing. |
| `ReorderBuffer.Rob.WriteChunk` | lib/ngtcp2_rob.c:140-144 | Bytes copied into a chunk are stored at their offsets; nothing else changes. |
| `ReorderBuffer.Rob.WriteData` | lib/ngtcp2_rob.c:120-152 | Writing adds the chunks that are missing, aligned and in order, and stores exactly the bytes given; the loop ends. |
| `ReorderBuffer.Rob.FillGaps` | lib/ngtcp2_rob.c:161-199 | The walk over the gaps cuts the pushed range out of each and stores exactly the bytes that were missing. |
| `ReorderBuffer.Rob.Push` | lib/ngtcp2_rob.c:154-201 | The gaps are the complement of everything received; a byte keeps the value it was first given. |
| `ReorderBuffer.Rob.RemovePrefix` | lib/ngtcp2_rob.c:203-227 | Everything below the offset is skipped, and nothing else. |
| `ReorderBuffer.Rob.DataAt` | lib/ngtcp2_rob.c:229-245 | Returns stored bytes from the offset up to the first gap or the end of the chunk; nothing exactly if the offset is missing; its assertions hold. |
| `ReorderBuffer.Rob.Pop` | lib/ngtcp2_rob.c:247-257 | Drops exactly what was handed out. |
| `ReorderBuffer.Rob.FirstGapOffset` | lib/ngtcp2_rob.c:259-264 | The least offset missing. |
| `ReorderBuffer.OneChunk` | lib/ngtcp2_rob.c:120-152 | Every stored byte is in exactly one chunk, however often it was received. |
| `StreamReceive.RxStrm.constructor` | lib/ngtcp2_strm.c:29-71 | A new stream has delivered nothing, whatever stream it will follow. |
| `StreamReceive.RxStrm.EmitPending` | lib/ngtcp2_conn.c:2777-2806 | Hands out, in order, everything up to the first gap; fin is raised exactly with the last byte. |
| `StreamReceive.RxStrm.DeliverFrame` | lib/ngtcp2_conn.c:2964-2994 | A frame at or before the first gap delivers its new part and what it makes available. |
| `StreamReceive.RxStrm.ReorderFrame` | lib/ngtcp2_conn.c:2995-2999 | A frame past the first gap is buffered; nothing is delivered. |
| `StreamReceive.RxStrm.Classify` | lib/ngtcp2_conn.c:2890-2962 | The final offset is checked and noted as the decision function says; an error changes nothing. |
| `StreamReceive.RxStrm.RecvStream` | lib/ngtcp2_conn.c:2808-3001 | What is delivered is a prefix of the sender's stream after every frame, accepted or not; the connection is charged for exactly the new bytes and stays within its limit. |
| `StreamReceive.ReplyIs` | lib/ngtcp2_conn.c:2890-2962 | The answer to a frame, computed from the state of the stream, is a function of the frames before it and the limits alone. |
| `StreamReceive.AmpleReply` | lib/ngtcp2_conn.c:2824-2962 | With credit for the whole stream, a piece of it is refused exactly if it is empty without fin. |
| `StreamReceive.ReceiveAll` | lib/ngtcp2_conn.c:2890-3001 | For any frames that are slices of a stream, in any order: they are accepted up to the first for which the limits and the frames before it call for an error, with that error; the data delivered is the stream up to the first byte that no accepted frame carried; fin is delivered exactly if a frame ends there with fin, and only last. |
| `FlowControl.LiveBound` | lib/ngtcp2_conn.c:4452-4491 | An ID space that never reuses an ID and adds 4 per close has at most initial / 4 + 1 live streams. |
| `Streams.CloseComplete` | lib/ngtcp2_conn.c:4511-4523 | A stream that may be closed has, on each side that was not reset, received or had acknowledged everything. |
| `Streams.CloseIff` | lib/ngtcp2_conn.c:4511-4523 | A stream may be closed if and only if both sides are shut and all that was not reset has been received and acknowledged. |
| `Streams.ReceivedValid` | lib/ngtcp2_conn.c:2890-3001 | An accepted frame keeps the stream within its limits and is charged the growth of its last offset. |
| `Streams.ReceivedExtends` | lib/ngtcp2_conn.c:2890-3001 | An accepted frame extends its stream within the credit; a stream that was reset is not extended. |
| `Streams.AckedValid` | lib/ngtcp2_rtb.c:191-231 | The acknowledged offsets are the union of the acknowledged ranges; the reported ranges keep tiling the acknowledged prefix. |
| `Streams.SentValid` | lib/ngtcp2_conn.c:4358-4370 | Sending within the limit keeps the stream sound. |
| `Streams.RecvMirrored` | lib/ngtcp2_conn.c:2890-3001 | The stream with real buffers and the one the connection keeps take the same decision on a frame, and are in step again after it. |
| `Streams.ReplayMirrored` | lib/ngtcp2_conn.c:2890-3001 | So they are over any sequence of frames, up to the first that both refuse for the same reason. |
| `Ledger.PutKeeps` | lib/ngtcp2_conn.c:2940-2962 | A change of one stream within its own and the connection's limits keeps the books of all streams, closed ones included: what was charged is the last offset received unless reset, what was sent is the offset reached. |
| `Ledger.CloseStrmKeeps` | lib/ngtcp2_conn.c:4463-4509 | Closing a stream keeps the sums; the closed stream stays in the books with what was charged and sent, and is complete. |
| `Ledger.TxIsSum` | lib/ngtcp2_conn.c:4358-4370 | The connection's send offset is the sum over all streams ever opened, closed ones included. |
| `Ledger.RxIsSum` | lib/ngtcp2_conn.c:2940-2962 | If every stream that was charged was opened and none was reset, the receive offset is the sum of theirs; `RunSums.RunTotals` derives that for runs. |
| `Ledger.ClaimKeeps` | lib/ngtcp2_conn.c:2831-2888 | An ID that was never used opens a stream that was never live. |
| `Ledger.TakeNextKeeps` | lib/ngtcp2_conn.c:4154-4205 | The next local ID is new. |
| `Ledger.CloseIdKeeps` | lib/ngtcp2_conn.c:4452-4491 | A closed ID is no longer live but still known. |
| `Ledger.AdvertiseKeeps` | lib/ngtcp2_conn.c:1669-1716 | Announcing the peer's limit keeps the ID books. |
| `Ledger.InvPut` | lib/ngtcp2_conn.c:2808-3001 | The invariant of accounts and ID books survives a change of a live stream. |
| `Ledger.InvClose` | lib/ngtcp2_conn.c:4463-4523 | The invariant survives a close. |
| `Ledger.PeerStreamsBounded` | lib/ngtcp2_conn.c:2831-2888 | Under the invariant the peer has at most initial / 4 + 1 streams of a kind. |
| `Steps.FrameFits` | lib/ngtcp2_conn.c:2890-2962 | An accepted STREAM frame fits the accounts. |
| `Steps.ResetFits` | lib/ngtcp2_conn.c:3100-3137 | An accepted RST_STREAM fits the accounts: it is charged up to its final offset. |
| `Steps.WriteFits` | lib/ngtcp2_conn.c:4280-4370 | Written data within both limits fits the accounts. |
| `Steps.SettleKeeps` | lib/ngtcp2_conn.c:4511-4523 | Closing a stream as soon as it is complete keeps the invariant. |
| `Steps.RaisedLimitGrows` | lib/ngtcp2_conn.c:4610-4622 | Raising a stream's limit does not lower it if and only if the 64-bit sum does not wrap around. |
| `Machine.StartSound` | lib/ngtcp2_conn.c:212-330 | A fresh connection satisfies the invariant. |
| `Machine.ParamsKeep` | lib/ngtcp2_conn.c:4060-4105 | The send limit is overwritten; the invariant holds afterwards if and only if what was sent is within it. |
| `Machine.FoundKeeps` | lib/ngtcp2_conn.c:2831-2888 | A stream that the peer opens by naming it keeps the invariant; its ID was never open, charged or sent on before. |
| `Machine.StreamKeeps` | lib/ngtcp2_conn.c:2808-3001 | An accepted STREAM frame keeps the invariant, takes nothing back, and sends nothing. |
| `Machine.ResetKeeps` | lib/ngtcp2_conn.c:3066-3138 | So does a RST_STREAM, for open, closed and unopened streams. |
| `Machine.RepeatedReset` | lib/ngtcp2_conn.c:3100-3137 | After an accepted RST_STREAM that does not complete the stream, the same one is accepted if and only if its final offset is the last one received. |
| `Machine.StopKeeps` | lib/ngtcp2_conn.c:3140-3192 | STOP_SENDING resets the sending side, or only claims the ID, and keeps the invariant. |
| `Machine.MaxStreamDataKeeps` | lib/ngtcp2_conn.c:2107-2168 | MAX_STREAM_DATA keeps the invariant, and never lowers a limit. |
| `Machine.AckKeeps` | lib/ngtcp2_rtb.c:191-231 | Acknowledging a frame that was written keeps the invariant, and closes the stream once complete. |
| `Machine.OpenKeeps` | lib/ngtcp2_conn.c:4154-4205 | A stream opened here has an ID that was never used. |
| `Machine.WriteKeeps` | lib/ngtcp2_conn.c:4218-4373 | Written data is within the stream's and the connection's limits. |
| `Machine.WrittenWithin` | lib/ngtcp2_conn.c:4286-4289 | What is written stays within both limits if and only if neither was overrun before. |
| `Machine.OverrunWrites` | lib/ngtcp2_conn.c:4286-4293 | With a connection limit below what was sent, the credit left wraps around and data is sent. |
| `Machine.WrittenBlank` | lib/ngtcp2_conn.c:4286-4296 | A written frame is empty without fin exactly if the application wrote that; every receiver refuses it. |
| `Machine.WrittenMost` | lib/ngtcp2_conn.c:4280-4298 | The frame fits into the packet, and as much is written as the data, the packet less 15 bytes and the two limits allow; fin goes with the last byte only. |
| `Machine.BlockedIff` | lib/ngtcp2_conn.c:4287-4293 | Data is blocked if and only if one of the two limits is used up. |
| `Machine.OverheadBound` | lib/ngtcp2_pkt.c:1034-1060 | A STREAM frame has at most 25 bytes besides its data, at most 15 if the ID is below 2^30 and the length below 2^14, and more than 15 if ID and offset are not below 2^30. |
| `Machine.RefusedOnlyLarge` | lib/ngtcp2_conn.c:4280-4317 | A packet with more than 15 bytes left is not refused for lack of room, unless a number is large. |
| `WritePath.WrittenFits` | lib/ngtcp2_conn.c:4280-4317 | Every frame that is written can be encoded, and its bytes fit into the room left in the packet. |
| `WritePath.EncodedLength` | lib/ngtcp2_pkt.c:1034-1060 | The length that the connection reckons with is that of the encoded frame. |
| `Closing.StepCloses` | lib/ngtcp2_conn.c:4511-4523 | After a STREAM frame that is not discarded, a reset by either side or an acknowledgement that is reported, a stream with nothing left to do is closed. |
| `Closing.ReportedIff` | lib/ngtcp2_rtb.c:191-231 | An acknowledgement is reported if and only if the frame has fin or carries the first offset not acknowledged yet. |
| `Closing.RunCloses` | lib/ngtcp2_conn.c:4511-4523 | In every state of every run no stream is open on which nothing is left to do, unless the application has reset its sending side or written an empty end. |
| `Closing.StopWritingLeaves` | lib/ngtcp2_conn.c:4525-4537 | If the application resets the sending side, the stream stays open with nothing left to do if and only if its receiving side is done. |
| `Closing.EmptyFinLeaves` | lib/ngtcp2_conn.c:4355-4372 | So it does after an empty end, if and only if all before it was received and acknowledged. |
| `Growth.CloseRaises` | lib/ngtcp2_conn.c:4452-4461 | A close raises the limit on the peer's streams by exactly four if the first ID was used and the limit can grow, and else not at all. |
| `Growth.RunReplenished` | lib/ngtcp2_conn.c:4452-4491 | Between any two states of a run, that limit has grown by four for each stream closed, under the same condition. |
| `Effects.LimitsHeeded` | lib/ngtcp2_conn.c:2173-2175 | A limit of the peer is in force once it is heard of, unless a higher one was before; so for IDs, by the kind of the limit. |
| `Effects.StreamLimitHeeded` | lib/ngtcp2_conn.c:2107-2165 | The same for the limit of a stream, which is opened if need be. |
| `Effects.DataAnnounced` | lib/ngtcp2_conn.c:1515-1572 | What was freed for the connection is announced at once with other frames, and else as soon as it is more than half a window, not before. |
| `Effects.ConsumedListed` | lib/ngtcp2_conn.c:2351-2367 | A stream that is still read waits for an announcement as soon as more than half a window was freed on it, not before. |
| `Effects.StreamsAnnounced` | lib/ngtcp2_conn.c:1574-1596 | All that was freed on the streams that wait is announced, nothing on others, and none is left waiting. |
| `Listing.RunWanted` | lib/ngtcp2_conn.c:2351-2367 | In every state of every run, a stream that waits for an announcement is open, was not stopped, and has no end known from a frame with fin. |
| `Effects.RunCredit` | lib/ngtcp2_conn.c:4624-4632 | Over any run, the connection's limit, announced or not, is the initial one and all that was consumed, up to 2^62 - 1. |
| `Effects.StartLimits` | lib/ngtcp2_conn.c:4088-4120 | An endpoint starts with the limits it has set and those the peer has set, and with its first IDs. |
| `Effects.OpenedSides` | lib/ngtcp2_conn.c:4154-4205 | A stream opened here can be written on, and read if and only if it is bidirectional. |
| `Effects.FoundSides` | lib/ngtcp2_conn.c:2864-2888 | A stream opened by the peer can be read, and written on if and only if it is bidirectional. |
| `Effects.Silences` | lib/ngtcp2_conn.c:3184-3191 | After STOP_SENDING, a reset by the application or a frame with fin, the stream is gone or shut for writing. |
| `Effects.SilencedRefuses` | lib/ngtcp2_conn.c:4240-4249 | Nothing can be written on such a stream. |
| `Effects.StopReadingStops` | lib/ngtcp2_conn.c:4539-4608 | Once the application has stopped reading, no data of the stream is taken in. |
| `Effects.ResetCharges` | lib/ngtcp2_conn.c:3066-3137 | The first RST_STREAM of a stream charges the connection exactly up to the final offset, whether or not the stream was ever created. |
| `Effects.RefusalCharges` | lib/ngtcp2_conn.c:2890-2918 | Of all frames that are refused, exactly those that pass a known end are charged to the connection. |
| `Machine.ConsumeKeeps` | lib/ngtcp2_conn.c:2351-2367 | Raising a stream's limit in 64 bits keeps the invariant if and only if the sum does not wrap around to less than what was announced. |
| `Machine.AnnounceStreamsKeeps` | lib/ngtcp2_conn.c:1574-1596 | Announcing the limits of all waiting streams keeps the invariant. |
| `Connection.Conn.constructor` | lib/ngtcp2_conn.c:212-330 | The state is that of a fresh connection. |
| `Connection.Conn.RemoteExtension` | lib/ngtcp2_conn.c:4452-4461 | Tells whether closing a stream extends the peer's limit. |
| `Connection.Conn.CloseIfShut` | lib/ngtcp2_conn.c:4463-4523 | A stream with nothing left to do moves to the closed ones, and the peer may open one more in exchange; others are left alone. |
| `Connection.Conn.RecvStream` | lib/ngtcp2_conn.c:2808-3001 | Answer and new state are those of `Machine`, also for a frame that is refused: one that contradicts the final offset has been charged by then. |
| `Connection.Conn.RecvRst` | lib/ngtcp2_conn.c:3066-3138 | Answer and new state in all cases of RST_STREAM, for open, closed and unopened streams. |
| `Connection.Conn.RecvStopSending` | lib/ngtcp2_conn.c:3140-3192 | The sending side is reset; an unopened stream is only claimed. |
| `Connection.Conn.RecvMaxStreamData` | lib/ngtcp2_conn.c:2107-2168 | Raises the limit of one stream, opening it if need be; limits are never lowered. |
| `Connection.Conn.RecvMaxData` | lib/ngtcp2_conn.c:2173-2175 | The connection's limit is the maximum of both; never lowered. |
| `Connection.Conn.RecvMaxStreamId` | lib/ngtcp2_conn.c:3365-3377 | The limit for the kind of stream is the maximum of both. |
| `Connection.Conn.Acked` | lib/ngtcp2_rtb.c:191-231 | The application is told of each acknowledged byte once and in order; the stream is closed once complete. |
| `Connection.Conn.OpenStream` | lib/ngtcp2_conn.c:4154-4205 | Opens the next ID, which was never used, or is blocked exactly if it is past the limit. |
| `Connection.Conn.WriteStream` | lib/ngtcp2_conn.c:4218-4373 | The frame carries what the data, the packet and both credits, as 64-bit differences, allow, starting where the last one ended; fin only with the last byte. |
| `Connection.Conn.ShutdownWrite` | lib/ngtcp2_conn.c:4525-4592 | The sending side is reset once. |
| `Connection.Conn.ShutdownRead` | lib/ngtcp2_conn.c:4539-4608 | The peer is asked to stop once. |
| `Connection.Conn.ExtendMaxStreamOffset` | lib/ngtcp2_conn.c:2351-2367 | Raises what may be announced for a stream, in 64 bits, and lists the stream if it is due. |
| `Connection.Conn.ExtendMaxOffset` | lib/ngtcp2_conn.c:4624-4632 | Raises what may be announced for the connection, up to the largest variable-length integer. |
| `Connection.Conn.FlushMaxData` | lib/ngtcp2_conn.c:1560-1572 | MAX_DATA is sent when due, or along with other frames; the limit in force becomes the one announced. |
| `Connection.Conn.FlushMaxStreamData` | lib/ngtcp2_conn.c:1574-1596 | Every waiting stream, and no other, announces its limit; the waiting list is emptied. |
| `Connection.Conn.FlushMaxStreamId` | lib/ngtcp2_conn.c:1669-1716 | The peer's limit in force becomes the one announced. |
| `Connection.Conn.SetRemoteParams` | lib/ngtcp2_conn.c:4060-4105 | The limits on sending are overwritten. |
| `History.StepKeeps` | lib/ngtcp2_conn.c:3578-3680 | Every step that does not end the connection keeps the invariant, the record of written frames, and what the gap lists say of the frames acknowledged and received. |
| `History.RunKeeps` | lib/ngtcp2_conn.c:3578-3680 | In every state of every run: receive and send offsets are within their limits and balance over all streams, written frames tile what was sent, the gap lists of all streams are exactly what no acknowledged or received frame carries, closed streams are complete, and the peer has at most initial / 4 + 1 streams of a kind. |
| `RunSums.RunTotals` | lib/ngtcp2_conn.c:2940-2962 | In every state of every run the send offset is the sum of those of all streams ever opened, closed ones included; so is the receive offset as long as no RST_STREAM has arrived. |
| `RunIds.StepOnly` | lib/ngtcp2_conn.c:2831-2888 | A step forgets no ID, and brings about streams only for IDs that were not used. |
| `RunIds.RunSpent` | lib/ngtcp2_conn.c:4463-4509 | An ID that was closed, or only claimed, never has a stream again in the rest of the run. |
| `ConnectionRun.Step` | lib/ngtcp2_conn.c:3578-3680 | Each event leads to the answer and the state that the definition gives. |
| `ConnectionRun.RunAll` | lib/ngtcp2_conn.c:3578-3680 | The connection goes through the states of the run up to the first event whose answer is an error, and returns that answer; all that runs keep holds at the end. |
| `History.OneFin` | lib/ngtcp2_conn.c:4358-4370 | All frames of a stream with fin are the same frame. |
| `ConnectionRun.CarriedTaken` | lib/ngtcp2_conn.c:2909-2913 | A repeated fin frame can be dropped with its data: an earlier frame carried it. |
| `ConnectionRun.AmpleAccepts` | lib/ngtcp2_conn.c:2824-2962 | With enough credit all frames written on a stream are accepted, except those empty without fin. |
| `ConnectionRun.Transfer` | lib/ngtcp2_conn.c:2812-3001 | Whatever arrives of the frames written on a stream, the peer gets a prefix of what was sent, and the end only with all of it; with enough credit all is accepted exactly if no frame is empty without fin, and then everything is delivered once every byte and fin have arrived. |
| `Peers.CreditFits` | lib/ngtcp2_conn.c:2940-2962 | If what one endpoint may send is covered by what the other has granted, everything sent on a stream fits into the credit left for the connection. |
| `Peers.FrameAccepted` | lib/ngtcp2_conn.c:2808-3001 | Of two endpoints whose books agree, one accepts a STREAM frame written by the other if and only if it is not empty without fin, and not new on a stream that was reset. |
| `Peers.ResetAccepted` | lib/ngtcp2_conn.c:3066-3138 | It accepts the RST_STREAM at the end of what was sent if and only if the stream was not reset before its end was reached. |
| `Peers.LateAfterReset` | lib/ngtcp2_conn.c:3100-3137 | After a reset that leaves the stream open, everything still under way is new on a stream that was reset. |
| `PeerRun.MoveKeeps` | lib/ngtcp2_conn.c:3578-3680 | Every step of an endpoint, on anything the other may have sent, keeps their books in agreement. |
| `PeerRun.RunAccepts` | lib/ngtcp2_conn.c:2808-3001 | In every state of every run of a client and a server: a STREAM frame that one has written is accepted by the other if and only if it is not empty without fin, and not new on a stream that was reset. |
| `PeerRun.RunResets` | lib/ngtcp2_conn.c:3009-3138 | The same for RST_STREAM, which carries the end of what was sent. |
| `PeerRun.RunTellable` | lib/ngtcp2_conn.c:1672-1712 | In every such state, a limit on stream IDs that is announced is one that the other endpoint may hear, if and only if the initial limit is an ID of its kind, or the limit is within that of the other kind. |
| `PeerDelivery.FinsStep` | lib/ngtcp2_conn.c:2908-2926 | The end of a stream that was not reset and is still read is known only from a frame with fin that was taken in. |
| `PeerDelivery.StopLoses` | lib/ngtcp2_conn.c:3174-3182 | After a STOP_SENDING frame for a stream that does not exist yet, every STREAM frame that would have been accepted is accepted and ignored. |
| `PeerDelivery.RunLands` | lib/ngtcp2_conn.c:2808-3001 | In every state of every run of a client and a server: what one has taken in was written by the other; and every byte of a frame that it accepts is in a frame taken in, unless reading was stopped, the stream was reset, or its ID was only claimed; in the last case nothing is taken in. |
| `PeerDelivery.RunClosed` | lib/ngtcp2_conn.c:4463-4523 | In every such state: if one endpoint has closed a stream that the other did not reset, the other has finished it, the last offset received is the end of what was sent, and every byte of it was taken in. |
| `PeerCredit.DataReaches` | lib/ngtcp2_conn.c:1560-1572 | Once MAX_DATA has arrived, one endpoint may send exactly what the other may receive, which is all that its application has freed. |
| `PeerCredit.StreamReaches` | lib/ngtcp2_conn.c:1574-1596 | The same for MAX_STREAM_DATA and a stream that waits for it. |
| `PeerCredit.IdsReach` | lib/ngtcp2_conn.c:1672-1712 | Once MAX_STREAM_ID has arrived, one endpoint can open a stream if and only if the other admits it. |
| `PacketNumber.AdjustIsNearer` | lib/ngtcp2_pkt.c:1467-1480 | The bit operations choose the nearer candidate from the block of the expected number and the next one. |
| `PacketNumber.RecoveredExactly` | lib/ngtcp2_pkt.c:1467-1480 | A truncated number is recovered if and only if it is in the block of the expected number and not half a window behind, or in the next one and at most half a window ahead. |
| `PacketNumber.SenderRecovered` | lib/ngtcp2_conn.c:758-773 | With the width the sender selects, in 64-bit arithmetic, every new packet number is recovered by a receiver that has seen all that the sender takes to have arrived (in the 32-bit form, if at most 2^31 others). |
| `PacketNumber.ServerWidth` | lib/ngtcp2_conn.c:1495-1498 | The width selected for the first number of a server, which takes the one before to have arrived, is 8 bits. |
| `PacketNumber.FirstRecovered` | lib/ngtcp2_conn.c:2497-2500 | A receiver that has seen nothing recovers a number from 32 bits if and only if it is below 2^32, from 8 bits if and only if it is below 256. |
| `PacketNumber.LateIsNotRecovered` | lib/ngtcp2_pkt.c:1467-1480 | A number just behind, in the block before, is taken for another one. |
| `RingBuffer.MaskedBack` | lib/ngtcp2_ringbuf.c:57-62 | Masking in 64 bits steps back by one slot, also from slot 0. |
| `RingBuffer.PushHolds` | lib/ngtcp2_ringbuf.c:57-62 | Writing the slot before the first puts one item in front of the others and at most overwrites the last. |
| `RingBuffer.Ring.constructor` | lib/ngtcp2_ringbuf.c:31-47 | An empty ring, whatever its first slot. |
| `RingBuffer.Ring.PushFront` | lib/ngtcp2_ringbuf.c:57-62 | The new item comes first; the oldest is lost exactly if the ring was full. |
| `RingBuffer.Ring.Resize` | lib/ngtcp2_ringbuf.c:64-67 | Keeps the newest items. |
| `RingBuffer.Ring.Get` | lib/ngtcp2_ringbuf.c:69-73 | The item at a place, newest first. |
| `AckFrames.ValidateAck` | lib/ngtcp2_pkt.c:1482-1507 | Accepts exactly the frames whose ranges do not pass below zero. |
| `AckFrames.AppendBlk` | lib/ngtcp2_conn.c:540-553 | One more block acknowledges exactly one more range, below the others. |
| `AckFrames.GapIs` | lib/ngtcp2_conn.c:552-553 | Between two ranges lies one number more than the gap says; none of them is acknowledged, and the next one below is. |
| `AckTracker.InsertLargest` | lib/ngtcp2_acktr.c:92-135 | Inserting in order and trimming keeps exactly the largest entries. |
| `AckTracker.SurvivorsAre` | lib/ngtcp2_acktr.c:203-258 | What is left are exactly the entries the sent frame did not cover. |
| `AckTracker.SelectedIs` | lib/ngtcp2_acktr.c:260-326 | The selected sent ACK is the newest that is hit. |
| `AckTracker.Acktr.constructor` | lib/ngtcp2_acktr.c:52-68 | Nothing is tracked. |
| `AckTracker.Acktr.Add` | lib/ngtcp2_acktr.c:92-135 | Refused exactly if tracked; otherwise the 1024 largest of old and new remain, descending, and are counted. |
| `AckTracker.Acktr.Forget` | lib/ngtcp2_acktr.c:137-154 | Keeps exactly the entries before. |
| `AckTracker.Acktr.AddAck` | lib/ngtcp2_acktr.c:176-184 | The sent frame comes first in the ring of 128. |
| `AckTracker.Acktr.OnAck` | lib/ngtcp2_acktr.c:203-258 | Removes exactly the packets that the sent frame covered, and the frames sent before it. |
| `AckTracker.Acktr.SelectAck` | lib/ngtcp2_acktr.c:260-326 | The walk over ranges and ring finds the newest sent ACK of sufficient protection whose packet is acknowledged. |
| `AckTracker.Acktr.RecvAck` | lib/ngtcp2_acktr.c:260-326 | Prunes by the selected sent ACK, or changes nothing if there is none. |
| `AckBuilder.DrawUp` | lib/ngtcp2_conn.c:520-573 | The loop draws up a frame of all eligible entries, or stops at the first packet of the 257th run. |
| `AckBuilder.CreateAckFrame` | lib/ngtcp2_conn.c:477-584 | The frame is valid and acknowledges exactly the eligible entries if they form at most 256 runs; otherwise the first 256 runs and one packet more, and the rest is forgotten from that packet on; its delay is the time since the largest of them arrived, in units of 2^exponent, rounded down. |
| `AckRun.PacketComplete` | lib/ngtcp2_acktr.c:92-135 | A packet added to a tracker that is not full loses nothing. |
| `AckRun.PruneComplete` | lib/ngtcp2_acktr.c:203-258 | Removing what a sent frame covered loses nothing. |
| `AckRun.PrunedFor` | lib/ngtcp2_acktr.c:260-326 | A packet is forgotten on an ACK frame only if one sent in a packet now acknowledged covered it, and for a frame without protection only one sent without. |
| `AckRun.BuiltHonest` | lib/ngtcp2_conn.c:477-584 | A frame built from the tracker acknowledges received packets only. |
| `AckRun.DroppedIff` | lib/ngtcp2_acktr.c:121-132 | A packet added to a full tracker loses nothing if and only if the smallest number was acknowledged before. |
| `AckRun.ForgottenIff` | lib/ngtcp2_conn.c:566-580 | A frame for more than 256 runs loses nothing if and only if all entries past those it is drawn up from were acknowledged before. |
| `AckRun.PacketForgotten` | lib/ngtcp2_conn.c:477-584 | After between 258 and 1024 packets with even numbers, one frame makes the tracker forget packet 0, which was never acknowledged. |
| `AckRun.SendAnswers` | lib/ngtcp2_conn.c:477-594 | If an acknowledgement is due, the next chance is used: the frame acknowledges all packets that it may, if they form at most 256 runs, and no others, none of which is protected if the frame is not; its delay is right; and no more is due. |
| `AckRun.RunActive` | lib/ngtcp2_acktr.c:117-119 | In every state of every run, an acknowledgement is due if and only if a packet that calls for one has arrived since the last frame. |
| `AckRun.RunKeeps` | lib/ngtcp2_acktr.c:92-326 | Over any run, from any first number, with packets with and without ACK frames, up to a packet tracked already or an invalid ACK frame: every frame acknowledges received packets only; if no event overflows the tracker or a frame, every received packet is tracked or was acknowledged; with at most 256 different packets none does. |
| `AckRun.RunAll` | lib/ngtcp2_acktr.c:92-326 | The tracker goes through the states of the run, stops exactly at an event that is refused, and keeps what runs keep. |
| `HeapOrder.RootIsLeast` | lib/ngtcp2_pq.c:89-95 | The root of a heap is least. |
| `HeapOrder.RisingStep` | lib/ngtcp2_pq.c:55-65 | Swapping with the parent moves the only disorder up. |
| `HeapOrder.SinkingStep` | lib/ngtcp2_pq.c:97-116 | Swapping with the smaller child moves the only disorder down. |
| `HeapOrder.ReplaceSinks` | lib/ngtcp2_pq.c:118-149 | The last entry in place of a smaller one may only have to sink. |
| `HeapOrder.ReplaceRises` | lib/ngtcp2_pq.c:127-149 | The last entry in place of one not smaller may only have to rise. |
| `PriorityQueue.Pq.constructor` | lib/ngtcp2_pq.c:32-38 | An empty queue. |
| `PriorityQueue.Pq.SwapAt` | lib/ngtcp2_pq.c:45-53 | Two entries change places, and their stored indices with them. |
| `PriorityQueue.Pq.BubbleUp` | lib/ngtcp2_pq.c:55-65 | Restores the heap; the entries are the same and know their places. |
| `PriorityQueue.Pq.BubbleDown` | lib/ngtcp2_pq.c:97-116 | Restores the heap; the entries are the same and know their places. |
| `PriorityQueue.Pq.MinChild` | lib/ngtcp2_pq.c:97-112 | The smallest of an entry and its children. |
| `PriorityQueue.Pq.Push` | lib/ngtcp2_pq.c:67-87 | Adds one entry, growing the array if need be. |
| `PriorityQueue.Pq.Top` | lib/ngtcp2_pq.c:89-95 | An entry with the least expiry, or none exactly if empty. |
| `PriorityQueue.Pq.Pop` | lib/ngtcp2_pq.c:118-125 | Removes the top and nothing else. |
| `PriorityQueue.Pq.Remove` | lib/ngtcp2_pq.c:127-149 | Removes the given entry and nothing else. |
| `Retransmission.Rtb.constructor` | lib/ngtcp2_rtb.c:98-105 | An empty buffer. |
| `Retransmission.Rtb.Add` | lib/ngtcp2_rtb.c:122-139 | The packet comes first in the list and is in the heap; the bytes in flight grow by its length. |
| `Retransmission.Rtb.RemoveAt` | lib/ngtcp2_rtb.c:173-189 | The packet leaves list and heap; the bytes in flight shrink by its length and cannot underflow. |
| `Retransmission.Rtb.Top` | lib/ngtcp2_rtb.c:141-147 | A packet with the least expiry. |
| `Retransmission.Rtb.Pop` | lib/ngtcp2_rtb.c:149-171 | Takes the packet with the least expiry out of both. |
| `AckWalk.KeptAre` | lib/ngtcp2_rtb.c:233-302 | What is kept are exactly the packets not acknowledged, or of insufficient protection. |
| `AckWalk.KeptDescending` | lib/ngtcp2_rtb.c:233-302 | The order is kept. |
| `AckWalk.TopIsMax` | lib/ngtcp2_rtb.c:252-297 | The largest acknowledged number is the maximum of the old one and those removed. |
| `AckWalk.WalkEnds` | lib/ngtcp2_rtb.c:233-302 | The interleaved walk over list and ranges has removed exactly the acknowledged packets of a descending list. |
| `AckWalk.AscentBlocks` | lib/ngtcp2_rtb.c:122-139 | Every list of distinct numbers with an ascent has a valid ACK frame that acknowledges an entry and removes nothing. |
| `AckRemoval.RecvAck` | lib/ngtcp2_rtb.c:233-302 | On a descending list exactly the acknowledged packets of sufficient protection go, and the others stay in order; on any list only such packets go, none is added, and the largest acknowledged number is the maximum of the old one and those that went; if an entry out of order blocks the walk, nothing goes. |
| `AckRemoval.WalkRanges` | lib/ngtcp2_rtb.c:250-299 | The walk over the first range and the blocks, with list and heap kept in step. |
| `Backoff.FreshTimed` | lib/ngtcp2_rtb.c:49-67 | A packet sent for the first time satisfies the timing invariant. |
| `Backoff.BackoffStep` | lib/ngtcp2_rtb.c:87-89 | A packet that expires before its deadline was retransmitted at most once before, and doubling its period keeps the invariant. |
| `Backoff.Doubling` | lib/ngtcp2_rtb.c:87-89 | The first period is 1 second, and each retransmission doubles it. |
| `Backoff.Renew` | lib/ngtcp2_rtb.c:87-89 | New number, next count, and the period that `Backoff.Doubling` and `Timing.RunOnTime` speak of. |
| `Backoff.Handle` | lib/ngtcp2_conn.c:1044-1077 | For each outcome of writing a packet: the status, and what goes back to the head of list and heap. |
| `Backoff.ResendPart` | lib/ngtcp2_conn.c:724-747 | A packet sent in part becomes two entries of the same protection: the old one, with its old number, in front of the new one. |
| `Backoff.RetransmittedSound` | lib/ngtcp2_conn.c:994-1078 | Whatever comes of a retransmission, no packet is ever retransmitted more than twice, and numbers stay distinct and below the next one. |
| `Backoff.OrderKept` | lib/ngtcp2_conn.c:994-1078 | A descending list stays so if and only if the packet that is due is past its deadline, or is not sent in part and, if there is no room for it, is the first of the list already. |
| `Backoff.RetransmittedStems` | lib/ngtcp2_conn.c:994-1078 | Every entry afterwards is one from before, or the one sent in its place in the next packet, with its deadline and protection, one more count and the doubled period. |
| `Backoff.UnexpiredStays` | lib/ngtcp2_conn.c:994-1078 | An entry that has not expired stays as it is. |
| `Backoff.Retransmit` | lib/ngtcp2_conn.c:994-1078 | The loop ends: entries that need not be sent any more are dropped in the order of their expiry, and the next one that has expired is dealt with by its deadline and the outcome; it stops idle only if nothing has expired. |
| `RetransmissionRun.StepSound` | lib/ngtcp2_conn.c:994-1078 | Every event keeps the timing invariant and the distinctness of numbers. |
| `RetransmissionRun.Begin` | lib/ngtcp2_conn.c:1495-1498 | A fresh buffer, with the largest acknowledged number that an endpoint starts from: 0, or the number before a server's first. |
| `RetransmissionRun.Keep` | lib/ngtcp2_rtb.c:122-139 | A new packet comes first, with its first expiry and its deadline. |
| `RetransmissionRun.Confirm` | lib/ngtcp2_conn.c:2079-2090 | An invalid ACK frame ends the connection and changes nothing; a valid one removes what it should. |
| `RetransmissionRun.Step` | lib/ngtcp2_conn.c:994-1078 | Each event leads to a state that the definition allows, and ends the connection exactly on an invalid ACK frame, a passed deadline or a failure to write. |
| `RetransmissionRun.RunSent` | lib/ngtcp2_rtb.c:122-139 | Every listed packet was sent by some event of the run, or took over frames of one that was. |
| `RetransmissionRun.RunOrder` | lib/ngtcp2_rtb.c:122-139 | If no timer event sends a packet in part or finds no room for it, the list descends. |
| `RetransmissionRun.RunHolds` | lib/ngtcp2_rtb.c:122-302 | A packet is listed for as long as no valid ACK frame has acknowledged it and no timer has found it expired. |
| `RetransmissionRun.RunAcked` | lib/ngtcp2_rtb.c:233-302 | If the list descends, a valid ACK frame takes exactly the acknowledged packets of sufficient protection off it. |
| `RetransmissionRun.RunTop` | lib/ngtcp2_rtb.c:252-297 | The largest acknowledged number is the initial one or that of a packet in flight when some event acknowledged it, and never drops. |
| `RetransmissionRun.NextRecovered` | lib/ngtcp2_conn.c:758-773 | The number of the next packet, in the width chosen from the largest acknowledged one, is recovered by every receiver that has acknowledged no more than it has seen, and has seen all that was taken to have arrived at first; by one that has not, if and only if it is near enough to what it has seen for the width chosen at first. |
| `RetransmissionRun.RunAll` | lib/ngtcp2_rtb.c:122-302 | Any run, from any first number and any initial largest acknowledged one, up to its end or the event that ends the connection: list and heap hold the same packets, the bytes in flight are the sum of their lengths, all were sent, under distinct numbers, none was retransmitted more than twice, and the list descends if no packet was sent in part or moved. |
| `Timing.RunOnTime` | lib/ngtcp2_rtb.c:49-89 | In every run in which the timer is never late, a packet sent once expires 1 second after it was sent, one sent twice 3 seconds and one sent three times 7 seconds after the first. |
| `Timing.FiresOnce` | lib/ngtcp2_conn.c:994-1078 | A packet that alone has expired goes out again in the next packet, or ends the connection if its deadline has passed. |
| `Timing.Lone` | lib/ngtcp2_conn.c:994-1078 | A packet that is never acknowledged goes out again after 1 and 3 seconds, and after 7 the connection gives up. |
| `Timing.RunTimesOut` | lib/ngtcp2_conn.c:1006-1009 | If the timer is never late, the connection gives up only on a packet sent three times, 7 seconds after the first. |
| `Survival.HandledLeaves` | lib/ngtcp2_conn.c:1044-1077 | Exactly the entries there are after each outcome of a retransmission: what was written has one of its own, what was not keeps the old one, and if nothing is left there is none. |
| `Survival.RunSurvives` | lib/ngtcp2_conn.c:994-1078 | In every run in which no frame is cancelled, what was in flight is so still, in this packet or one that took it over, or was acknowledged. |
| `Survival.ProtectedStays` | lib/ngtcp2_rtb.c:252-297 | An ACK frame without protection removes no protected packet. |
| `Varint.BigEndianRoundTrip` | lib/ngtcp2_conv.c:32-65 | A number is read back from its big-endian bytes. |
| `Varint.ByteAt` | lib/ngtcp2_conv.c:100-123 | The most significant byte of a number comes first. |
| `Varint.PutGet` | lib/ngtcp2_conv.c:67-163 | Every number up to 2^62 - 1 is read back, whatever follows it, and the two length functions agree. |
| `Varint.TagIsLog` | lib/ngtcp2_conv.c:62-65 | The two highest bits of the first byte are the base-2 logarithm of the length (RFC 9000, section 16), for reading and for writing. |
| `Varint.PutIs` | lib/ngtcp2_conv.c:125-145 | Each byte that is written: that of the big-endian number, with the tag on the first. |
| `Varint.PutShortest` | lib/ngtcp2_conv.c:151-163 | A number is written in the shortest length that has room for it. |
| `Varint.GetBound` | lib/ngtcp2_conv.c:67-98 | No byte string is read as more than 2^62 - 1. |
| `Fields.ParseEncode` | lib/ngtcp2_pkt.c:249-1407 | Each kind of field is read back, and what follows it is left. |
| `Fields.ParseEncodeAll` | lib/ngtcp2_pkt.c:249-1407 | So is each sequence of fields. |
| `Frames.Decode` | lib/ngtcp2_pkt.c:249-310 | A frame takes at least one byte and leaves a suffix of the payload. |
| `Frames.PaddingRoundTrip` | lib/ngtcp2_pkt.c:515-532 | PADDING is read back if no zero byte follows. |
| `Frames.FixedRoundTrip` | lib/ngtcp2_pkt.c:534-986 | Each of the 13 frames of fixed layout is read back. |
| `Frames.StreamRoundTrip` | lib/ngtcp2_pkt.c:312-405 | STREAM is read back, with or without fin and offset. |
| `Frames.AckRoundTrip` | lib/ngtcp2_pkt.c:407-513 | ACK is read back up to its first 255 blocks. |
| `Frames.RoundTrip` | lib/ngtcp2_pkt.c:249-1407 | Decoding an encoded frame with any bytes after it gives the frame and leaves these bytes; it differs from what was sent if and only if it is an ACK with more than 255 blocks. |
| `Wire.WrittenOctets` | lib/ngtcp2_pkt.c:988-1407 | Every frame other than PADDING is written in the octets of the draft: its type, and its fields in their order. |
| `Wire.ReadOctets` | lib/ngtcp2_pkt.c:249-986 | These octets are read as the frame. |
| `Wire.StreamWithLength` | lib/ngtcp2_pkt.c:312-405 | A STREAM frame with a length, with or without an offset, is read from its octets. |
| `Wire.StreamToEnd` | lib/ngtcp2_pkt.c:312-405 | One without a length takes all that follows as its data. |
| `FrameWriter.PutWord` | lib/ngtcp2_conv.c:100-123 | The big-endian bytes are written at the cursor, and nothing else. |
| `FrameWriter.PutVarint` | lib/ngtcp2_conv.c:125-145 | The tagged bytes are written at the cursor, and nothing else. |
| `FrameWriter.Length` | lib/ngtcp2_pkt.c:1034-1400 | The length computed in advance is that of the frame. |
| `FrameWriter.EncodeFrame` | lib/ngtcp2_pkt.c:988-1407 | Fails exactly if the buffer is too short, and then writes nothing; otherwise writes the bytes of the frame and nothing else. |
| `FrameReader.FieldsEndIs` | lib/ngtcp2_pkt.c:534-557 | Where a sequence of fields ends, as the first pass computes it, is where reading it ends. |
| `FrameReader.Measure` | lib/ngtcp2_pkt.c:534-557 | The first pass succeeds exactly if all fields can be read, never looks past the payload, and computes the length. |
| `FrameReader.MeasureAck` | lib/ngtcp2_pkt.c:407-481 | The first pass over an ACK succeeds exactly if the frame can be read, and computes its length. |
| `FrameReader.ReadFields` | lib/ngtcp2_pkt.c:559-571 | The second pass reads the fields and ends where the first pass said. |
| `FrameReader.ReadBlks` | lib/ngtcp2_pkt.c:498-508 | The first blocks are kept, the others skipped. |
| `FrameReader.DecodeFixedFrame` | lib/ngtcp2_pkt.c:534-986 | Agrees with the definition; the closing length assertion holds. |
| `FrameReader.DecodeStreamFrame` | lib/ngtcp2_pkt.c:312-405 | Agrees with the definition; the closing length assertion holds. |
| `FrameReader.DecodeAckFrame` | lib/ngtcp2_pkt.c:407-513 | Agrees with the definition; the closing length assertion holds. |
| `FrameReader.DecodePaddingFrame` | lib/ngtcp2_pkt.c:515-532 | Takes all leading zero bytes. |
| `FrameReader.DecodeFrame` | lib/ngtcp2_pkt.c:249-310 | On every payload that is not empty: fails exactly as the definition does, or gives its frame and takes between 1 and all bytes. |
| `Packets.DecodePacket` | lib/ngtcp2_conn.c:3578-3586 | The loop over a payload ends, and reads its frames up to the first that cannot be read. |
| `Packets.PacketRoundTrip` | lib/ngtcp2_conn.c:3578-3586 | Frames written one after another are read back in order, and nothing else, if PADDING does not follow PADDING. |
| `HashChains.InsertHolds` | lib/ngtcp2_map.c:106-123 | An entry in front of its chain adds exactly this key. |
| `HashChains.RemoveHolds` | lib/ngtcp2_map.c:182-198 | Unlinking an entry removes exactly this key. |
| `HashChains.MovedNext` | lib/ngtcp2_map.c:136-146 | The next entry to move is not in the new table yet, and adds exactly its key. |
| `StreamMap.Hash` | lib/ngtcp2_map.c:90-104 | The loop computes the FNV-1a hash in 32 bits, and masking gives a bucket of the table. |
| `StreamMap.InsertInto` | lib/ngtcp2_map.c:106-123 | Refuses exactly the keys that are there. |
| `StreamMap.MoveAll` | lib/ngtcp2_map.c:126-151 | The new table holds the same map; no insertion fails. |
| `StreamMap.StreamTable.constructor` | lib/ngtcp2_map.c:34-46 | An empty map. |
| `StreamMap.StreamTable.Find` | lib/ngtcp2_map.c:170-180 | The entry of exactly the keys that are there. |
| `StreamMap.StreamTable.Grow` | lib/ngtcp2_map.c:126-151 | Doubling keeps the map. |
| `StreamMap.StreamTable.Insert` | lib/ngtcp2_map.c:153-168 | Duplicates are refused; otherwise the map has one more key; the size is the number of keys, at most 3/4 of the table. |
| `StreamMap.StreamTable.Remove` | lib/ngtcp2_map.c:182-198 | Removes exactly this key, and fails exactly if it is not there. |
| `TransportParams.ItemsBack` | lib/ngtcp2_crypto.c:307-463 | Written parameters are read back if and only if all of them are acceptable. |
| `TransportParams.ChosenLatest` | lib/ngtcp2_crypto.c:150-216 | Of distinct parameters, the message has exactly those that were written, with their values. |
| `TransportParams.RoundTrip` | lib/ngtcp2_crypto.c:77-502 | For each message type: every field it carries comes back if and only if the stream IDs are valid for the type and the exponent is at most 20; otherwise the message is malformed; a zero address leaves the one that was there. |
| `ParamsWire.MessageOctets` | lib/ngtcp2_crypto.c:77-221 | A message is written in the octets of the draft: versions, length, and each parameter with its number; those at their default are left out. |
| `ParamsWire.AcceptedIff` | lib/ngtcp2_crypto.c:251-502 | A well-formed message is accepted if and only if it has parameters 0, 1 and 3, and 6 unless it is the client's. |
| `ParamsWire.MalformedIff` | lib/ngtcp2_crypto.c:251-502 | A message is malformed if and only if it has no reading as versions, length and acceptable parameters. |
| `ParamsWire.AcceptedValues` | lib/ngtcp2_crypto.c:251-502 | Accepted limits on stream IDs are 0 or IDs of the right kind and side, the exponent is at most 20, and a missing parameter has its default. |
| `ParamsCodec.BodyLength` | lib/ngtcp2_crypto.c:81-121 | The length computed in advance is that of the parameters. |
| `ParamsCodec.EncodeParams` | lib/ngtcp2_crypto.c:77-221 | Fails exactly if the buffer is too short; otherwise writes exactly the encoded bytes, as many as computed. |
| `ParamsCodec.ReadParams` | lib/ngtcp2_crypto.c:307-463 | The loop accepts exactly the well-formed parameters; each field has its last value. |
| `ParamsCodec.DecodeParams` | lib/ngtcp2_crypto.c:251-502 | On every byte string: the result of the definition, with malformed and incomplete messages told apart. |

## Left out

- Handshake, Retry, Version Negotiation, 0-RTT and the packet headers: driven by TLS callbacks, or without further properties.
- Packet protection, keys and nonces: foreign cryptography.
- Stream 0: its credit is extended twice and it is not counted; the accounts are about the other streams.
- Packet numbers that restart after Retry: `AckRun` and `RetransmissionRun` are about one space of numbers.
- Allocation and callbacks: taken as successes; errors of the protocol are modelled.
- Freeing of memory.
- Linked lists: sequences, so relinking through pointers is not modelled; the heap, the ring, the chunks and the table are arrays.
- The table of streams inside the connection: `Connection.Conn` keeps its streams in a map, which `StreamMap.StreamTable` is proved to be.
- The frames inside a packet to be retransmitted: which of them are cancelled is an outcome given from outside; `Backoff` is about the entries.
- The delayed-ACK timer, and the ACK delay beyond its field.
- The flags field of a decoded STREAM frame, and frame fields of types that the wire does not carry.
- The priority queue's update of all entries (`ngtcp2_pq_update`): it has no caller in the library.
- Contents of transport parameters after a failed decode: the source leaves them half filled.
- The window-start update after a close, which changes a local pointer only.
- Early data: it is put into the retransmission buffer with an old number, like a packet that did not fit.
- StreamMap.StreamTable.Insert: requires that a table with no room can be doubled in 32 bits; beyond 2^31 chains the source's table length wraps to zero.
- IdTracker.Idtr.Open: requires what the source asserts: a tracker that is not the server's gets even IDs only.
- Transport parameters in the middle of a run: `ConnectionRun.RunAll` sets them once, at its start; `Machine.ParamsKeep` says what a later change does.
- Amounts of consumed data above 2^62 - 1 in a run: no stream carries more; `Machine.ConsumeKeeps` says what they do.
- Between the two endpoints of `PeerRun`: the handshake and stream 0. Acknowledgements may come there for any frame written, arrived or not.
- MAX_STREAM_ID frames in `PeerRun` that announce a limit of the wrong kind: `PeerRun.RunTellable` says exactly which settings lead to them.
