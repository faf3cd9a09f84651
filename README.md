# cdnet sequenced transport, modelled in Dafny

cdnet is a small addressing and transport layer for CDBUS-style serial
links. Packets live in a fixed pool that the application provides. They move
between linked lists: a free pool, a receive queue to the upper layer, a send
queue from the upper layer, and a direct queue of packets that go out once.
On top of that, a sequenced transport gives each peer a transmit record and a
receive record. A transmit record has a wait queue, a pending window of
packets sent but not yet acknowledged, a 7-bit sequence number, an
ack-request counter and at most one outstanding port-0 control request. The
control request is either a set-seq (payload `[0, n]`) or a query (empty
payload). The receiving peer acknowledges with a cumulative ack that names
the number it expects next.

The model covers `net/cdnet_seq.c` (record initialisation, record matching,
`cdnet_send_pkt`, the three inbound handlers and `cdnet_seq_tx_routine`) and
the receive side of `net/cdnet.c` (`cdnet_intf_init`, `cdnet_rx`,
`cdnet_exchg_src_dst`, `cdnet_fill_src_addr`).

Layout:

- `types.dfy` (`CdnetTypes`): machine integer ranges and the configuration
  constants. Also the packet record, and the arithmetic on 7-bit sequence
  numbers and on the wrapping 32-bit tick counter.
- `packet.dfy` (`CdnetPacket`): level classification, normalisation, the
  routing decision of `cdnet_rx`, and the two addressing rewrites.
- `records.dfy` (`SeqRecords`): the receive and transmit records and
  address matching. Also the first-match lookup along a recency list,
  `list_move_begin`, and the cumulative-ack cut of a pending queue.
- `intf.dfy` (`CdnetIntf`): the interface as a class `Intf`. Its packet
  queues and recency lists are sequence fields, and the two record pools are
  arrays. An intrusive list node is a packet's index in the arena `arena`.
  `Intf.View()` gives the whole state as a value `Snap`. `SnapOk` is the
  interface invariant.
- `seq_common.dfy` (`SeqCommon`): `cdnet_send_pkt` and the list walks, as
  methods with loops.
- `seq_rx.dfy` (`SeqRx`): the inbound handlers. Each one is stated as an
  effect function on `Snap`, and a method is proved to perform exactly that
  effect. The outcome lemmas say what each effect guarantees.
- `seq_tx.dfy` (`SeqTx`): the transmit routine, built the same way, phase by
  phase: admission, direct drain, then the service of each record (retry,
  set-seq, pending check, wait drain).
- `rx.dfy` (`CdnetRx`): the `cdnet_rx` loop over the frames the link hands
  up.
- `scenarios.dfy` (`Scenarios`): properties that connect the two ends of
  the protocol.

Every state-changing operation is a method on `Intf`. It has a `modifies`
clause and ensures `intf.View() == Effect(old(intf.View()), ...)`, where
`Effect` is a pure function proved to keep `SnapOk`. The conservation
lemmas (`...Conserves`) prove that every operation only moves packets. The
multiset of packets held by the queues and records is the same afterwards,
except for packets that a handler is handed or that leave the interface.

## Model

| member | source | states |
|---|---|---|
| CdnetTypes.ClearCast | net/cdnet.c:61-62 | clearing the multicast bit leaves a non-multicast value and keeps the network-address bit |
| CdnetTypes.Advance | net/cdnet_seq.c:312 | advancing a sequence number `(n + 1) & 0x7f` always gives a synchronised number different from `n`: `n + 1` below 0x7f, 0 after 0x7f |
| CdnetTypes.Unsync | net/cdnet_seq.c:258 | bit 7 of a sequence number is set exactly when the number is at least 0x80 |
| CdnetTypes.Elapsed | net/cdnet_seq.c:420 | the unsigned 32-bit tick difference `now - since`: adding it to `since` modulo 2^32 gives `now` |
| CdnetTypes.Rewind | net/cdnet_seq.c:469 | a stamp of `now - SEQ_TIMEOUT` (32-bit) is exactly `SEQ_TIMEOUT` ticks old at `now` |
| CdnetPacket.ClassifyLevel | net/cdnet.c:98-109 | byte 3 names L2 iff its top two bits are set, L1 iff only bit 7 is set, L0 otherwise |
| CdnetPacket.Normalize | net/cdnet.c:111-116 | the multicast flags are cleared outside L1 and the fragment fields outside L2; `multi` is kept on L1 and `frag`/`l2Flag` on L2; only those three fields may change, and a normal packet is unchanged |
| CdnetPacket.DecodeFrame | net/cdnet.c:98-116 | decoding succeeds iff the level is not L2 and the codec succeeds; a successful L1 decode yields the codec's packet normalised, a successful L0 decode the codec's packet with `seq` cleared, normalised; an L0 packet is never sequenced; the result is always normalised |
| CdnetPacket.RouteOf | net/cdnet.c:131-147 | a packet goes to the request handler iff it is a port-0 request, to the reply handler iff it is a port-0 reply and not a request, to the sequenced handler iff it is sequenced and neither, to the upper layer otherwise |
| CdnetPacket.ExchgSrcDst | net/cdnet.c:52-69 | the MACs swap (a broadcast source becomes this interface's MAC); L1 network addresses swap (a multicast is answered from this interface with the multicast bit cleared and the network bit kept); outside that case `multi` and the addresses are kept; ports swap outside L2; level, payload, fragment fields and transient fields are kept |
| CdnetPacket.FillSrcAddr | net/cdnet.c:71-76 | the source MAC becomes this interface's, the source address too for an L1 packet with network addressing, and nothing else changes |
| CdnetPacket.ExchgSrcDstInvolution | net/cdnet.c:52-69 | exchanging twice restores a unicast packet whose MACs are not 255 |
| CdnetPacket.ReplyReturnsToSender | net/cdnet.c:52-58 | the turned-around packet goes to the original sender and comes from this interface when the original was addressed to it or broadcast |
| SeqRecords.PeerAddr | net/cdnet_seq.c:169-174 | the address a receive record is given for a sender matches that sender's non-multicast packets |
| SeqRecords.Lookup | net/cdnet_seq.c:143-149 | the result is the first position along the recency list whose record matches, or -1 when none matches |
| SeqRecords.MoveToFront | net/cdnet_seq.c:165 | the chosen entry becomes first, the entries before it shift back by one, the rest stay in place |
| SeqRecords.MoveToFrontIsPerm | net/cdnet_seq.c:165 | moving an entry to the front keeps the recency list a permutation of the records |
| SeqRecords.AckCut | net/cdnet_seq.c:214-221 | an ack for `k` cuts the pending queue before its first packet stamped `k`, or after the whole queue when none is |
| SeqRecords.CumulativeAck | net/cdnet_seq.c:214-221 | on a pending queue numbered consecutively from `s`, an ack for `s + m` frees exactly the first `m` packets |
| SeqRecords.AckCutExact | net/cdnet_seq.c:214-221 | the cut is `m` when the first `m` packets are not stamped `k` and the next one is |
| CdnetIntf.InitSnap | net/cdnet_seq.c:30-53 | every receive and transmit record starts with address (255, 255) and the unsynchronised number 0x80 |
| CdnetIntf.InitHoldsFree | net/cdnet.c:29-47 | the initial state satisfies the interface invariant and holds exactly the free pool |
| CdnetIntf.InitNoAlias | net/cdnet.c:29-47 | an initial state over a free pool without repetitions holds every packet at most once |
| CdnetIntf.Intf.constructor | net/cdnet.c:29-47 | the interface is initialised to `InitSnap` with its own address and is valid |
| SeqCommon.SendOutcome | net/cdnet_seq.c:100-132 | the send result is -1 iff the link has no free frame, 0 iff the frame is encoded (never for L2), and 1 iff the codec fails |
| SeqCommon.Sent | net/cdnet_seq.c:100-132 | a send uses up one link outcome, puts the packet on the wire only when the result is 0, and changes nothing else |
| SeqCommon.SendPkt | net/cdnet_seq.c:100-132 | `cdnet_send_pkt` returns `SendOutcome` and leaves the state `Sent` describes |
| SeqCommon.FindRxRec | net/cdnet_seq.c:299-305 | the walk over the receive records returns the first matching position, as `Lookup` does |
| SeqCommon.FindTxRec | net/cdnet_seq.c:197-203 | the walk over the transmit records returns the first matching position, as `Lookup` does |
| SeqCommon.FindAckCut | net/cdnet_seq.c:214-221 | the pending walk stops at `AckCut` |
| SeqRx.RxFind | net/cdnet_seq.c:143-149 | the position along the recency list of the first receive record matching the sender (no earlier one matches), or -1 when no record matches |
| SeqRx.RxAdvance | net/cdnet_seq.c:311-332 | the sender's record expects the next number and is moved to the front of the recency list, the others keeping their order; every other record is unchanged |
| SeqRx.RxSetSeq | net/cdnet_seq.c:161-178 | the sender's record, or else the least recently used record re-keyed to the sender, expects `n` and is moved to the front of the recency list, the others keeping their order; no other record changes |
| SeqRx.AckPacket | net/cdnet_seq.c:314-324 | the ack is an unsequenced L1 port-0 request carrying `[n]`, addressed back to the sender |
| SeqRx.SeqRxEffect | net/cdnet_seq.c:294-334 | the sequenced handler keeps the interface invariant; its outcome is stated by `SeqRxOutcome` |
| SeqRx.ServiceEffect | net/cdnet_seq.c:136-187 | the port-0 service keeps the interface invariant; its outcome is stated by `ServiceOutcome` and `ServiceSetOutcome` |
| SeqRx.TxFindInput | net/cdnet_seq.c:197-203 | the first transmit record along the recency list keyed by the packet's source, or -1 when none is |
| SeqRx.Acked | net/cdnet_seq.c:214-221 | the freed packets followed by the remaining ones are the old pending queue; no freed packet is stamped `k`, and the first remaining one is |
| SeqRx.AckEffect | net/cdnet_seq.c:196-223 | the ack branch keeps the interface invariant; its outcome is stated by `AckOutcome` |
| SeqRx.RequestEffect | net/cdnet_seq.c:190-227 | a one-byte request is an ack, any other request goes to the service; the invariant is kept |
| SeqRx.Replied | net/cdnet_seq.c:256-291 | a query reply adopts the peer's number, frees what that number acknowledges (nothing when it is unsynchronised), and moves the rest of the pending queue before the waiting packets; a set reply frees every pending packet; the request and retry count are always cleared |
| SeqRx.ReplyKeeps | net/cdnet_seq.c:256-291 | a reply only moves packets: the record's old packets are its new ones plus the freed ones plus the request |
| SeqRx.QueryKeeps | net/cdnet_seq.c:256-276 | in the query-reply case, the freed packets and the new wait queue are the old pending and wait queues |
| SeqRx.ReplyEffect | net/cdnet_seq.c:229-292 | the reply handler keeps the interface invariant; its outcome is stated by `ReplyOutcome` |
| SeqRx.SeqRxConserves | net/cdnet_seq.c:294-334 | the sequenced handler holds the handed packet and nothing else new |
| SeqRx.ServiceConserves | net/cdnet_seq.c:136-187 | the service holds the handed packet and nothing else new |
| SeqRx.AckConserves | net/cdnet_seq.c:196-223 | the ack branch holds the handed packet and nothing else new |
| SeqRx.RequestConserves | net/cdnet_seq.c:190-227 | the request handler holds the handed packet and nothing else new |
| SeqRx.ReplyConserves | net/cdnet_seq.c:229-292 | the reply handler holds the handed packet and nothing else new |
| SeqRx.SeqRxOutcome | net/cdnet_seq.c:294-334 | a packet that is not the expected one is freed and nothing else changes; an accepted one is delivered, the sender's record expects the next number and is moved to the front of the recency list (the rest keep their order), no other record changes, and an L1 port-0 ack with that number goes on the direct queue iff the packet asks for an ack and a packet is free |
| SeqRx.ServiceOutcome | net/cdnet_seq.c:136-187 | a query (empty payload) is answered in place from port 0 back to the asking port with the sender's expected number, or 0x80 when it has no record, the records untouched, on the direct queue; a request that is neither a query nor a set request is freed and nothing else changes |
| SeqRx.ServiceSetOutcome | net/cdnet_seq.c:160-183 | a set request `[0, n]` makes the sender's record, or the least recently used one re-keyed so that it matches the sender, expect `n` and moves it to the front of the recency order (the order is exactly the old one with that record moved); no other record changes; the request is answered in place with an empty payload on the direct queue |
| SeqRx.AckOutcome | net/cdnet_seq.c:196-223 | a stray ack, or an ack while a control request is outstanding, is freed alone; otherwise the pending head before the first packet stamped with the ack's number is freed in order, then the ack, and no other record changes |
| SeqRx.ReplyOutcome | net/cdnet_seq.c:229-292 | a reply that does not fit the outstanding request is freed alone; a fitting one clears the request and retry count and frees the request and the reply; a query reply leaves nothing pending; a set reply frees the whole pending queue |
| SeqRx.HandlersKeepNoAlias | net/cdnet.c:131-147 | each handler, given a packet nothing holds, keeps every packet held at most once |
| SeqRx.SeqRxHandle | net/cdnet_seq.c:294-334 | `cdnet_seq_rx_handle` performs `SeqRxEffect` |
| SeqRx.P0Service | net/cdnet_seq.c:136-187 | `cdnet_p0_service` performs `ServiceEffect` |
| SeqRx.P0RequestHandle | net/cdnet_seq.c:190-227 | `cdnet_p0_request_handle` performs `RequestEffect` |
| SeqRx.P0ReplyHandle | net/cdnet_seq.c:229-292 | `cdnet_p0_reply_handle` performs `ReplyEffect` |
| SeqTx.Prepared | net/cdnet_seq.c:348-359 | an admitted packet is normal, and it is sequenced iff it asked to be, is not L0 and is not broadcast; only the sequenced flag, `multi` (kept on L1) and the fragment fields may change |
| SeqTx.DstPeer | net/cdnet_seq.c:390-395 | the address a recycled transmit record is given matches the packet's destination, unless the packet is multicast without network addressing |
| SeqTx.JoinWait | net/cdnet_seq.c:366-368 | the packet is appended to the record's wait queue and the record moves to the front |
| SeqTx.Recycle | net/cdnet_seq.c:380-397 | the least recently used record is zeroed, keyed to the peer, unsynchronised, given the packet to wait, and moved to the front |
| SeqTx.TxFind | net/cdnet_seq.c:361-372 | the first transmit record along the recency list keyed by the packet's destination (no earlier one is), or -1 when none is |
| SeqTx.TakeHead | net/cdnet_seq.c:345-359 | the head of the send queue is taken off and prepared in place |
| SeqTx.AdmitStep | net/cdnet_seq.c:343-400 | a turn keeps the invariant; the send queue loses its head iff admission goes on |
| SeqTx.AdmitAll | net/cdnet_seq.c:343-400 | the admission loop keeps the invariant |
| SeqTx.AdmitAllDrains | net/cdnet_seq.c:379-386 | admission stops only when the send queue is empty, or when its head is a sequenced packet with no record and the least recently used record is in use |
| SeqTx.AdmitStops | net/cdnet_seq.c:379-386 | admission stops iff the prepared head is a sequenced packet with no record and the least recently used record is in use; the packet then stays, prepared, at the head of the send queue and nothing else changes |
| SeqTx.AdmitSequenced | net/cdnet_seq.c:361-399 | a sequenced packet ends last in the wait queue of the front record, which is keyed by its destination unless it is multicast without network addressing |
| SeqTx.AdmitUnsequenced | net/cdnet_seq.c:361-377 | an unsequenced packet goes on the direct queue, or last in the wait queue of its destination's record when that record is in use |
| SeqTx.AdmitStepConserves | net/cdnet_seq.c:343-400 | an admission turn only moves packets |
| SeqTx.AdmitAllConserves | net/cdnet_seq.c:343-400 | admission only moves packets |
| SeqTx.DirectStep | net/cdnet_seq.c:403-410 | on -1 the direct head stays; otherwise it is freed whether or not it was encoded |
| SeqTx.DirectDrained | net/cdnet_seq.c:403-410 | the drain goes on iff the direct queue is emptied |
| SeqTx.DirectDrainedConserves | net/cdnet_seq.c:403-410 | the direct drain only moves packets |
| SeqTx.Flushed | net/cdnet_seq.c:423-434 | a flushed record is not in use and is unsynchronised, and only that record and the free pool change |
| SeqTx.Resent | net/cdnet_seq.c:435-438 | when the link takes the resent request it is restamped with `now` and the retry is counted, and nothing else in the arena or the record changes; when the link refuses it, arena and record are unchanged; the queues and the recency list are kept either way |
| SeqTx.RetryEffect | net/cdnet_seq.c:418-441 | the retry changes only its own record, the arena, the free pool and the link |
| SeqTx.ControlReq | net/cdnet_seq.c:451-465 | a control request is an unsequenced L1 port-0 request from the default port, sent from this interface's MAC and keyed to the record's peer |
| SeqTx.IssueReq | net/cdnet_seq.c:444-466 | the first free packet becomes the record's request, addressed to its peer, and is handed to the link |
| SeqTx.SetSeqEffect | net/cdnet_seq.c:443-472 | the set-seq step changes only its own record, the arena, the free pool and the link |
| SeqTx.CheckEffect | net/cdnet_seq.c:474-507 | the pending check changes only its own record and goes on to the next record or ends the routine only with a pending packet |
| SeqTx.Stamped | net/cdnet_seq.c:516-524 | a sequenced packet takes the record's number and asks for an ack iff the counter completes its period; the counter wraps modulo `SEQ_TX_ACK_CNT` |
| SeqTx.WaitStep | net/cdnet_seq.c:510-539 | one send leaves the wait queue unchanged on -1, otherwise removes its head, and changes no other record |
| SeqTx.WaitDrained | net/cdnet_seq.c:510-539 | a drain that goes on leaves the wait queue empty or the window at `SEQ_TX_PEND_MAX + 1`; a drain that stops the routine leaves a packet at the head of the wait queue with room in the window, which happens only when a send returned -1 (the step that returns -1 keeps wait and pending, `WaitStep`) |
| SeqTx.RecordEffect | net/cdnet_seq.c:412-541 | the service of a record keeps the invariant and the recency list |
| SeqTx.ServiceFrom | net/cdnet_seq.c:412-416 | the record walk keeps the invariant |
| SeqTx.TxRoutineEffect | net/cdnet_seq.c:336-541 | the transmit routine keeps the invariant |
| SeqTx.FlushedConserves | net/cdnet_seq.c:423-434 | a flush only moves packets to the free pool |
| SeqTx.RetryConserves | net/cdnet_seq.c:418-441 | the retry only moves packets |
| SeqTx.IssueReqConserves | net/cdnet_seq.c:444-466 | issuing a request moves one free packet into the record |
| SeqTx.SetSeqConserves | net/cdnet_seq.c:443-472 | the set-seq step only moves packets |
| SeqTx.CheckConserves | net/cdnet_seq.c:474-507 | the pending check only moves packets |
| SeqTx.WaitStepConserves | net/cdnet_seq.c:510-539 | one wait-queue send only moves packets |
| SeqTx.WaitDrainedConserves | net/cdnet_seq.c:510-539 | the wait drain only moves packets |
| SeqTx.RecordConserves | net/cdnet_seq.c:412-541 | the service of a record only moves packets |
| SeqTx.ServiceConserves | net/cdnet_seq.c:412-541 | the record walk only moves packets |
| SeqTx.TxRoutineConserves | net/cdnet_seq.c:336-541 | the transmit routine neither loses nor invents a packet |
| SeqTx.TxRoutineKeepsNoAlias | net/cdnet_seq.c:336-541 | the transmit routine keeps every packet held at most once |
| SeqTx.RetryOutcome | net/cdnet_seq.c:418-441 | before the timeout `SEQ_TIMEOUT * (retries + 1)` nothing changes; once late with retries used up, the record frees pending, waiting and request packets in that order and becomes unused and unsynchronised; otherwise the record keeps everything but the count, which goes up iff the resend returned 0, and the request is restamped with `now` exactly then (the arena is otherwise unchanged) |
| SeqTx.RetryBackoff | net/cdnet_seq.c:418-438 | after a counted resend at `now`, a later pass does nothing to the record until more than `SEQ_TIMEOUT` times the new count plus one has passed since `now`; after a refused resend the stamp and count are unchanged, so a request still late is resent at the next pass |
| SeqTx.SetSeqOutcome | net/cdnet_seq.c:443-472 | with no free packet nothing changes; otherwise the first free packet becomes a port-0 request `[0, 0]` to the peer, the record numbers from 0, and the request counts as sent now, or `SEQ_TIMEOUT` ago when the link did not take it |
| SeqTx.CheckOutcome | net/cdnet_seq.c:474-507 | nothing happens until the oldest pending packet is late; then, with no free packet, the record is skipped; otherwise a query with an empty payload becomes the request, the ack counter restarts, and the routine ends iff the link had no frame |
| SeqTx.WaitStepOutcome | net/cdnet_seq.c:510-539 | a sequenced packet is stamped with the record's number and asks for an ack on the period's last send; on -1 the queues stay; a sequenced packet the link takes joins the window stamped now and the number advances; any other packet is freed |
| SeqTx.WindowAdmitsOneMore | net/cdnet_seq.c:514-515 | with `SEQ_TX_PEND_MAX` packets pending, the drain still sends one more sequenced packet, so the window reaches `SEQ_TX_PEND_MAX + 1` |
| SeqTx.RecordLocal | net/cdnet_seq.c:412-541 | the service of one record changes no other record and no queue but the free pool |
| SeqTx.AckFlags | net/cdnet_seq.c:518-523 | one ack-request flag per send of a run |
| SeqTx.AckPeriod | net/cdnet_seq.c:518-523 | the `k`-th send of a run asks for an ack iff `sendCnt + k + 1` is a multiple of `SEQ_TX_ACK_CNT` |
| SeqTx.AckFlagsStamp | net/cdnet_seq.c:516-524 | the flags of a run are those the stamping of each send sets |
| SeqTx.AppendChains | net/cdnet_seq.c:529-532 | appending the packet stamped with the record's number and advancing the number keeps the pending queue consecutively numbered |
| SeqTx.WaitStepChains | net/cdnet_seq.c:510-539 | one wait-queue send keeps the pending queue of a synchronised record numbered consecutively up to the record's next number |
| SeqTx.WaitDrainedChains | net/cdnet_seq.c:510-539 | the wait drain keeps that numbering |
| SeqTx.AdmitOne | net/cdnet_seq.c:344-399 | one admission turn performs `AdmitStep` |
| SeqTx.Admit | net/cdnet_seq.c:343-400 | the admission loop performs `AdmitAll` |
| SeqTx.DrainDirect | net/cdnet_seq.c:403-410 | the direct drain performs `DirectDrained` |
| SeqTx.FreeAll | net/cdnet_seq.c:425-428 | the given packets are appended to the free pool in order |
| SeqTx.RetryP0 | net/cdnet_seq.c:418-441 | the retry performs `RetryEffect` |
| SeqTx.SendSetSeq | net/cdnet_seq.c:443-472 | the set-seq step performs `SetSeqEffect` |
| SeqTx.CheckPending | net/cdnet_seq.c:474-507 | the pending check performs `CheckEffect` |
| SeqTx.WaitOne | net/cdnet_seq.c:511-538 | one wait-queue send performs `WaitStep` |
| SeqTx.DrainWait | net/cdnet_seq.c:510-539 | the wait drain performs `WaitDrained` |
| SeqTx.ServiceRecord | net/cdnet_seq.c:413-540 | the service of a record performs `RecordEffect` |
| SeqTx.ServiceRecords | net/cdnet_seq.c:412-541 | the record walk performs `ServiceFrom` |
| SeqTx.SeqTxRoutine | net/cdnet_seq.c:336-541 | `cdnet_seq_tx_routine` performs `TxRoutineEffect` |
| CdnetRx.RxStep | net/cdnet.c:93-147 | one pass keeps the interface invariant |
| CdnetRx.RxLoop | net/cdnet.c:87-95 | the loop leaves frames unread only when the free pool is empty |
| CdnetRx.DropOutcome | net/cdnet.c:120-129 | a frame that fails to decode, or that decodes to multicast, sends its packet to the back of the free pool and changes nothing else |
| CdnetRx.UpperOutcome | net/cdnet.c:146-147 | an unsequenced unicast packet that is neither port-0 request nor reply is appended to the receive queue and no record changes |
| CdnetRx.RxStepConserves | net/cdnet.c:93-147 | one pass only moves the packet it took |
| CdnetRx.RxLoopConserves | net/cdnet.c:80-149 | the receive loop neither loses nor invents a packet |
| CdnetRx.RxLoopKeepsNoAlias | net/cdnet.c:80-149 | the receive loop keeps every packet held at most once |
| CdnetRx.RxOne | net/cdnet.c:93-147 | one pass performs `RxStep` |
| CdnetRx.Rx | net/cdnet.c:80-149 | `cdnet_rx` performs `RxLoop` and reports how many frames it took |
| Scenarios.SetThenAccept | net/cdnet_seq.c:161-183 | after a set request for `n`, the receiver accepts the sender's unicast packet stamped `n` and then expects `n + 1` modulo 128 |
| Scenarios.DuplicateRejected | net/cdnet_seq.c:307-312 | a packet accepted once is rejected when it comes again |
| Scenarios.AckOnChain | net/cdnet_seq.c:214-221 | on a record the wait drain numbered, an ack naming the `m`-th pending packet's number frees exactly the `m` packets before it |
| Scenarios.AckNextFreesAll | net/cdnet_seq.c:214-221 | an ack naming the record's next number frees the whole pending queue |
| Scenarios.FiveSends | net/cdnet_seq.c:518-523 | from a fresh counter, five sequenced sends ask for an ack on the third only |

## Left out

- The frame codecs (`cdnet_l0/l1/l2_from_frame`, `..._to_frame`) are not part of this model. A received frame is the byte that selects its level, plus what the codec decodes it into (or a decode error). A send is one `TxOutcome` from a sequence the link gives as a parameter.
- The link callbacks (`get_rx_frame`, `get_free_frame`, `put_tx_frame`, `put_free_frame`) become the frame sequence of `CdnetRx.Rx` and the `link` and `wire` fields of the interface. Frame buffers themselves are not modelled.
- The clock `get_systick()` is a `now` parameter to the transmit routine. The source reads the clock anew at each use (net/cdnet_seq.c lines 420, 436, 467-469, 477, 501-503 and 531). The model gives every read in one pass of the routine the same instant, so it does not capture the clock advancing during a pass.
- Logging (`dn_debug`, `dn_warn`, `dn_error`) and the interface name are left out. They change no state.
- `cdnet.h` is not part of this model, so the configuration constants are values chosen for the model, not ones read from the source: 5 receive and 5 transmit records, a pending window of 3, an ack every 3 sends, 3 retries, a 500-tick timeout and default port 0xcdcd.
- The build options are fixed. `CDNET_USE_L2` is off, so L2 frames always fail to decode and L2 packets always fail to encode. The `USE_DYNAMIC_INIT` initialisation is always done.
- `cdnet_tx` only calls the transmit routine and is not modelled separately. Packet allocation by the application and the upper layer's use of the receive queue are outside the model.
- Intrusive lists are sequences of packet indices, and record lists are recency orders over record arrays. Moving a node between lists is a move of its index. A node that sits in two lists at once is a packet index held twice. `NoAlias` (no packet held twice) holds initially when the free pool has no repetitions (`CdnetIntf.InitNoAlias`). It is proved preserved by the transmit routine, the receive loop and each handler. It is not part of `Intf.Valid()`, so the numbering lemmas take it as a precondition.
- When decoding fails, the packet keeps its previous contents, normalised. The source leaves whatever the codec half-wrote, which the model cannot see.
- SeqTx.WaitStepChains, SeqTx.WaitDrainedChains: the numbering of the pending queue is proved for the record being drained, given that no packet is held twice (which the `...KeepsNoAlias` lemmas carry along), and not as a whole-interface invariant across replies and acks.
- SeqTx.AdmitSequenced: for a sequenced L1 multicast packet without network addressing, the record is keyed by the destination address while packets are matched by MAC. So the packet's own record is not proved to match it. The source marks sequenced multicast as unsupported.
- The code and its prose description disagree about the pending window. The description says at most `SEQ_TX_PEND_MAX` packets are pending. The check `pend.len > SEQ_TX_PEND_MAX` admits one more. The model follows the code, and `SeqTx.WindowAdmitsOneMore` exhibits the extra packet.
- The source also has these quirks, and the model keeps them as written:
  - a pending timeout that sends a query still goes on to the wait drain;
  - a resend counts a retry only when the link takes it.
