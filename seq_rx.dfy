/** The inbound handlers of net/cdnet_seq.c.  Each one takes a packet that
    `cdnet_rx` has just decoded (held by no queue) and disposes of it.  What
    each handler does is first stated as a pure effect on a view of the
    interface state; the handler methods are proved to perform exactly that
    effect, and the lemmas at the end state what the effects guarantee. */
module SeqRx {
  import opened CdnetTypes
  import opened CdnetPacket
  import opened SeqRecords
  import opened CdnetIntf
  import opened SeqCommon

  // ---------------------------------------------------------------------
  // Receive records

  predicate RxPoolOk(recs: seq<RxRec>, order: seq<nat>) {
    |recs| > 0 && IsPerm(order, |recs|)
  }

  /** The position of the receive record of a packet's sender. */
  function RxFind(recs: seq<RxRec>, order: seq<nat>, p: Packet): (k: int)
    requires RxPoolOk(recs, order)
    ensures -1 <= k < |order|
    ensures k >= 0 ==> AddrMatch(recs[order[k]].addr, p, Src)
    ensures k >= 0 ==> forall j :: 0 <= j < k ==> !AddrMatch(recs[order[j]].addr, p, Src)
    ensures k < 0 ==> forall j :: 0 <= j < |order| ==> !AddrMatch(recs[order[j]].addr, p, Src)
  {
    Lookup(RxAddrs(recs), order, p, Src)
  }

  /** The sequenced-receive check: the sender has a record and the packet
      carries exactly the number that record expects. */
  predicate RxAccepts(recs: seq<RxRec>, order: seq<nat>, p: Packet)
    requires RxPoolOk(recs, order)
  {
    var k := RxFind(recs, order, p);
    k >= 0 && recs[order[k]].seqNum == p.seqNum
  }

  /** The records after an accepted packet: the sender's record expects the
      next number and becomes the most recently used. */
  function RxAdvance(recs: seq<RxRec>, order: seq<nat>, p: Packet): (r: (seq<RxRec>, seq<nat>))
    requires RxPoolOk(recs, order) && RxAccepts(recs, order, p)
    ensures RxPoolOk(r.0, r.1) && |r.0| == |recs|
    ensures r.1 == MoveToFront(order, RxFind(recs, order, p))
    ensures r.0[r.1[0]] == recs[r.1[0]].(seqNum := Advance(p.seqNum))
    ensures forall i :: 0 <= i < |recs| && i != r.1[0] ==> r.0[i] == recs[i]
  {
    var k := RxFind(recs, order, p);
    var i := order[k];
    MoveToFrontIsPerm(order, k, |recs|);
    (recs[i := recs[i].(seqNum := Advance(recs[i].seqNum))], MoveToFront(order, k))
  }

  /** The number a query is answered with: the sender's expected number, or
      0x80 when the sender has no record. */
  function RxQuery(recs: seq<RxRec>, order: seq<nat>, p: Packet): byte
    requires RxPoolOk(recs, order)
  {
    var k := RxFind(recs, order, p);
    if k >= 0 then recs[order[k]].seqNum else SEQ_UNSYNC
  }

  /** The records after a set request for `n`: the sender's record, or when
      it has none the least recently used record re-addressed to it, expects
      `n` and becomes the most recently used. */
  function RxSetSeq(recs: seq<RxRec>, order: seq<nat>, p: Packet, n: byte): (r: (seq<RxRec>, seq<nat>))
    requires RxPoolOk(recs, order)
    ensures RxPoolOk(r.0, r.1) && |r.0| == |recs|
    ensures var k := RxFind(recs, order, p);
            r.1 == MoveToFront(order, if k >= 0 then k else |order| - 1)
    ensures r.0[r.1[0]].seqNum == n
    ensures RxFind(recs, order, p) >= 0 ==> r.0[r.1[0]].addr == recs[r.1[0]].addr
    ensures RxFind(recs, order, p) < 0 ==>
              r.0[r.1[0]].addr == PeerAddr(p)
    ensures forall i :: 0 <= i < |recs| && i != r.1[0] ==> r.0[i] == recs[i]
  {
    var k := RxFind(recs, order, p);
    if k >= 0 then
      var i := order[k];
      MoveToFrontIsPerm(order, k, |recs|);
      (recs[i := recs[i].(seqNum := n)], MoveToFront(order, k))
    else
      var last := |order| - 1;
      var i := order[last];
      MoveToFrontIsPerm(order, last, |recs|);
      (recs[i := RxRec(PeerAddr(p), n)],
       MoveToFront(order, last))
  }

  /** The acknowledgement `cdnet_seq_rx_handle` builds in a free packet: the
      addressing header of the received packet, turned around, as an L1
      port-0 request carrying the next expected number. */
  function AckPacket(me: Addr, p: Packet, stale: Packet, n: byte): (a: Packet)
    ensures IsP0Request(a) && a.level == L1 && !a.sequenced && a.dat == [n]
    ensures a.dstMac == p.srcMac
    ensures p.level == L1 && p.multi != MULTI_NONE ==> a.dstAddr == p.srcAddr
  {
    var hdr := stale.(level := p.level, sequenced := p.sequenced, multi := p.multi,
                      frag := p.frag, l2Flag := p.l2Flag, srcMac := p.srcMac,
                      dstMac := p.dstMac, srcAddr := p.srcAddr, dstAddr := p.dstAddr);
    ExchgSrcDst(me, hdr).(sequenced := false, level := L1, srcPort := CDNET_DEF_PORT,
                          dstPort := 0, dat := [n])
  }

  // ---------------------------------------------------------------------
  // The effects of the handlers on the interface state

  lemma RxPoolOkOf(s: Snap)
    requires SnapOk(s)
    ensures RxPoolOk(s.rxRecs, s.rxOrder)
  {
  }

  /** Delivering `id` with the receive records replaced by a pool of the
      same size keeps the interface invariant. */
  lemma DeliveredOk(s: Snap, recs: seq<RxRec>, order: seq<nat>, id: PktId)
    requires SnapOk(s) && id < |s.arena| && RxPoolOk(recs, order) && |recs| == |s.rxRecs|
    ensures SnapOk(s.(rxRecs := recs, rxOrder := order, rxHead := s.rxHead + [id]))
  {
  }

  /** Turning the head of the free pool into a packet on the direct queue
      keeps the interface invariant. */
  lemma AckQueuedOk(t: Snap, q: Packet)
    requires SnapOk(t) && t.free != []
    ensures SnapOk(t.(free := t.free[1..], direct := t.direct + [t.free[0]], arena := t.arena[t.free[0] := q]))
  {
  }

  /** `cdnet_seq_rx_handle`: an accepted packet advances its sender's
      record, is delivered to the upper layer and, when it asks for an ack
      and a packet is free, has one queued for direct transmission; any
      other packet is freed. */
  function SeqRxEffect(me: Addr, s: Snap, id: PktId): (t: Snap)
    requires SnapOk(s) && id < |s.arena|
    ensures SnapOk(t)
  {
    RxPoolOkOf(s);
    var p := s.arena[id];
    if RxAccepts(s.rxRecs, s.rxOrder, p) then
      var (recs, order) := RxAdvance(s.rxRecs, s.rxOrder, p);
      DeliveredOk(s, recs, order, id);
      var t := s.(rxRecs := recs, rxOrder := order, rxHead := s.rxHead + [id]);
      if p.reqAck && s.free != [] then
        var a := s.free[0];
        AckQueuedOk(t, AckPacket(me, p, s.arena[a], Advance(p.seqNum)));
        t.(free := s.free[1..], direct := s.direct + [a],
           arena := s.arena[a := AckPacket(me, p, s.arena[a], Advance(p.seqNum))])
      else t
    else
      s.(free := s.free + [id])
  }

  /** `cdnet_p0_service`: a query is answered with the sender's expected
      number and a set request with an empty payload, both on the direct
      queue; anything else is freed. */
  function ServiceEffect(me: Addr, s: Snap, id: PktId): (t: Snap)
    requires SnapOk(s) && id < |s.arena|
    ensures SnapOk(t)
  {
    RxPoolOkOf(s);
    var p := s.arena[id];
    if |p.dat| == 0 then
      s.(arena := s.arena[id := ExchgSrcDst(me, p.(dat := [RxQuery(s.rxRecs, s.rxOrder, p)]))],
         direct := s.direct + [id])
    else if |p.dat| == 2 && p.dat[0] == 0 then
      var (recs, order) := RxSetSeq(s.rxRecs, s.rxOrder, p, p.dat[1]);
      s.(rxRecs := recs, rxOrder := order,
         arena := s.arena[id := ExchgSrcDst(me, p.(dat := []))],
         direct := s.direct + [id])
    else
      s.(free := s.free + [id])
  }

  /** The transmit record an inbound control packet comes from. */
  function TxFindInput(s: Snap, p: Packet): (k: int)
    requires SnapOk(s)
    ensures -1 <= k < |s.txOrder|
    ensures k >= 0 ==> s.txOrder[k] < |s.txRecs| && AddrMatch(s.txRecs[s.txOrder[k]].addr, p, Src)
    ensures forall j :: 0 <= j < |s.txOrder| && (k < 0 || j < k) ==> !AddrMatch(s.txRecs[s.txOrder[j]].addr, p, Src)
  {
    Lookup(TxAddrs(s.txRecs), s.txOrder, p, Src)
  }

  /** A record after a cumulative ack for `k`, and the packets it frees:
      the pending packets before the first one stamped `k`. */
  function Acked(r: TxRec, arena: seq<Packet>, k: byte): (res: (TxRec, seq<PktId>))
    requires InArena(r.pend, |arena|)
    ensures res.0 == r.(pend := res.0.pend)
    ensures res.1 + res.0.pend == r.pend
    ensures InArena(res.0.pend, |arena|) && InArena(res.1, |arena|)
    ensures res.0.pend == [] || arena[res.0.pend[0]].seqNum == k
    ensures forall j :: 0 <= j < |res.1| ==> arena[res.1[j]].seqNum != k
  {
    var c := AckCut(r.pend, arena, k);
    assert r.pend[..c] + r.pend[c..] == r.pend;
    (r.(pend := r.pend[c..]), r.pend[..c])
  }

  /** The ack branch of `cdnet_p0_request_handle`: a stray ack, or one that
      arrives while a control request is outstanding, is freed; otherwise
      the acknowledged head of the pending queue is freed, then the ack. */
  function AckEffect(s: Snap, id: PktId): (t: Snap)
    requires SnapOk(s) && id < |s.arena| && |s.arena[id].dat| == 1
    ensures SnapOk(t)
  {
    var p := s.arena[id];
    var k := TxFindInput(s, p);
    if k < 0 || s.txRecs[s.txOrder[k]].p0Req.Some? then
      s.(free := s.free + [id])
    else
      var i := s.txOrder[k];
      var (r, freed) := Acked(s.txRecs[i], s.arena, p.dat[0]);
      s.(txRecs := s.txRecs[i := r], free := s.free + freed + [id])
  }

  /** `cdnet_p0_request_handle`. */
  function RequestEffect(me: Addr, s: Snap, id: PktId): (t: Snap)
    requires SnapOk(s) && id < |s.arena|
    ensures SnapOk(t)
  {
    if |s.arena[id].dat| == 1 then AckEffect(s, id) else ServiceEffect(me, s, id)
  }

  /** The reply guard of `cdnet_p0_reply_handle`: the sender has a record
      with a request outstanding, and a query is answered with one byte, a
      set request with none. */
  predicate ReplyFits(s: Snap, p: Packet)
    requires SnapOk(s)
  {
    var k := TxFindInput(s, p);
    k >= 0 && s.txRecs[s.txOrder[k]].p0Req.Some? &&
    var req := s.arena[s.txRecs[s.txOrder[k]].p0Req.value];
    !(|req.dat| == 0 && |p.dat| != 1) && !(|req.dat| == 2 && |p.dat| != 0)
  }

  /** A record after an accepted reply to a request of length `reqLen`, and
      the pending packets it frees.  A query reply adopts the peer's number;
      when that number is synchronised the packets the peer has received are
      freed as by an ack, and every packet still pending goes back, in
      order, to the head of the wait queue.  A set reply frees every pending
      packet.  Either way the request is released and its retry count
      cleared. */
  function Replied(r: TxRec, arena: seq<Packet>, reqLen: nat, p: Packet): (res: (TxRec, seq<PktId>))
    requires InArena(r.pend, |arena|) && (reqLen == 0 ==> |p.dat| == 1)
    ensures res.0.p0Req == None && res.0.retryCnt == 0
    ensures reqLen == 0 || |p.dat| == 0 ==> res.0.pend == []
    ensures res.0.addr == r.addr && res.0.sendCnt == r.sendCnt
    ensures reqLen == 0 ==> res.0.seqNum == p.dat[0] && res.1 + res.0.wait == r.pend + r.wait
    ensures reqLen == 0 && !Unsync(p.dat[0]) ==> res.1 == Acked(r, arena, p.dat[0]).1
    ensures reqLen == 0 && Unsync(p.dat[0]) ==> res.1 == []
    ensures reqLen != 0 ==> res.0.seqNum == r.seqNum && res.0.wait == r.wait
    ensures reqLen != 0 && |p.dat| == 0 ==> res.1 == r.pend
    ensures reqLen != 0 && |p.dat| != 0 ==> res.1 == [] && res.0 == r.(p0Req := None, retryCnt := 0)
  {
    var base := r.(p0Req := None, retryCnt := 0);
    if reqLen == 0 then
      var n := p.dat[0];
      var (acked, freed) := if !Unsync(n) then Acked(r, arena, n) else (r, []);
      (base.(seqNum := n, wait := acked.pend + r.wait, pend := []), freed)
    else if |p.dat| == 0 then
      (base.(pend := []), r.pend)
    else
      (base, [])
  }

  /** An accepted reply only moves packets: what the record gives up besides
      its request is freed, the rest stays in it. */
  lemma ReplyKeeps(r: TxRec, arena: seq<Packet>, reqLen: nat, p: Packet)
    requires TxRecOk(r, |arena|) && (reqLen == 0 ==> |p.dat| == 1) && r.p0Req.Some?
    ensures var (r', freed) := Replied(r, arena, reqLen, p);
            RecIds(r) == RecIds(r') + multiset(freed + [r.p0Req.value]) &&
            InArena(freed, |arena|) && TxRecOk(r', |arena|)
  {
    if reqLen == 0 {
      QueryKeeps(r, arena, p);
    }
  }

  /** The query-reply case of `ReplyKeeps`: the freed head of the pending
      queue and the new wait queue together are the old pending and wait
      queues. */
  lemma QueryKeeps(r: TxRec, arena: seq<Packet>, p: Packet)
    requires TxRecOk(r, |arena|) && |p.dat| == 1 && r.p0Req.Some?
    ensures var (r', freed) := Replied(r, arena, 0, p);
            RecIds(r) == RecIds(r') + multiset(freed + [r.p0Req.value]) &&
            InArena(freed, |arena|) && InArena(r'.wait, |arena|)
  {
    var (r', freed) := Replied(r, arena, 0, p);
    assert multiset(freed + r'.wait) == multiset(r.pend + r.wait);
    forall j | 0 <= j < |freed + r'.wait| ensures (freed + r'.wait)[j] < |arena| {
      assert (freed + r'.wait)[j] == (r.pend + r.wait)[j];
    }
    assert freed == (freed + r'.wait)[..|freed|];
    assert r'.wait == (freed + r'.wait)[|freed|..];
  }

  /** `cdnet_p0_reply_handle`: a reply that does not fit is freed; a fitting
      one updates the record, and any pending packets it frees are freed
      before the request and the reply. */
  function ReplyEffect(s: Snap, id: PktId): (t: Snap)
    requires SnapOk(s) && id < |s.arena|
    ensures SnapOk(t)
  {
    var p := s.arena[id];
    if !ReplyFits(s, p) then
      s.(free := s.free + [id])
    else
      var i := s.txOrder[TxFindInput(s, p)];
      var r := s.txRecs[i];
      var req := r.p0Req.value;
      ReplyKeeps(r, s.arena, |s.arena[req].dat|, p);
      var (r', freed) := Replied(r, s.arena, |s.arena[req].dat|, p);
      s.(txRecs := s.txRecs[i := r'], free := s.free + freed + [req, id])
  }

  // ---------------------------------------------------------------------
  // What the effects guarantee

  /** Conservation from the queues' side: when the records keep their
      packets and the upper layer's send queue is untouched, the free pool,
      the receive queue and the direct queue alone account for the change. */
  lemma QueuesOnly(s: Snap, t: Snap, id: PktId)
    requires t.txRecs == s.txRecs && t.txHead == s.txHead
    requires multiset(t.free) + multiset(t.rxHead) + multiset(t.direct) ==
             multiset(s.free) + multiset(s.rxHead) + multiset(s.direct) + multiset{id}
    ensures Held(t) == Held(s) + multiset{id}
  {
    var a, b := multiset(t.free) + multiset(t.rxHead) + multiset(t.direct),
                multiset(s.free) + multiset(s.rxHead) + multiset(s.direct);
    assert QueueIds(t) == a + multiset(t.txHead);
    assert QueueIds(s) == b + multiset(s.txHead);
  }

  /** Each inbound handler disposes of the packet it is handed: afterwards
      the interface holds exactly one more packet, that one, whatever
      becomes of it (delivered, answered, kept, or freed). */
  lemma SeqRxConserves(me: Addr, s: Snap, id: PktId)
    requires SnapOk(s) && id < |s.arena|
    ensures Held(SeqRxEffect(me, s, id)) == Held(s) + multiset{id}
  {
    RxPoolOkOf(s);
    var t := SeqRxEffect(me, s, id);
    if RxAccepts(s.rxRecs, s.rxOrder, s.arena[id]) {
      AcceptMoves(me, s, id);
    } else {
      assert t == s.(free := s.free + [id]);
      assert multiset(t.free) == multiset(s.free) + multiset{id};
    }
    QueuesOnly(s, t, id);
  }

  /** An accepted packet joins the receive queue, and with it an ack may
      move from the free pool to the direct queue; the transmit side is
      untouched. */
  lemma AcceptMoves(me: Addr, s: Snap, id: PktId)
    requires SnapOk(s) && id < |s.arena| && RxPoolOk(s.rxRecs, s.rxOrder)
    requires RxAccepts(s.rxRecs, s.rxOrder, s.arena[id])
    ensures var t := SeqRxEffect(me, s, id);
            t.txRecs == s.txRecs && t.txHead == s.txHead &&
            multiset(t.free) + multiset(t.rxHead) + multiset(t.direct) ==
            multiset(s.free) + multiset(s.rxHead) + multiset(s.direct) + multiset{id}
  {
    var t := SeqRxEffect(me, s, id);
    var p := s.arena[id];
    var (recs, order) := RxAdvance(s.rxRecs, s.rxOrder, p);
    var u := s.(rxRecs := recs, rxOrder := order, rxHead := s.rxHead + [id]);
    if p.reqAck && s.free != [] {
      var a := s.free[0];
      assert t == u.(free := s.free[1..], direct := s.direct + [a],
                     arena := s.arena[a := AckPacket(me, p, s.arena[a], Advance(p.seqNum))]);
      AckMoves(s, t, id);
    } else {
      assert t == u;
      assert multiset(t.rxHead) == multiset(s.rxHead) + multiset{id};
    }
  }

  /** Accepting a packet that asks for an ack: the packet joins the receive
      queue and the head of the free pool moves to the direct queue. */
  lemma AckMoves(s: Snap, t: Snap, id: PktId)
    requires s.free != [] && t.free == s.free[1..] && t.direct == s.direct + [s.free[0]]
    requires t.rxHead == s.rxHead + [id]
    ensures multiset(t.free) + multiset(t.rxHead) + multiset(t.direct) ==
            multiset(s.free) + multiset(s.rxHead) + multiset(s.direct) + multiset{id}
  {
    assert s.free == [s.free[0]] + t.free;
  }

  lemma ServiceConserves(me: Addr, s: Snap, id: PktId)
    requires SnapOk(s) && id < |s.arena|
    ensures Held(ServiceEffect(me, s, id)) == Held(s) + multiset{id}
  {
    RxPoolOkOf(s);
    var t := ServiceEffect(me, s, id);
    var p := s.arena[id];
    if |p.dat| == 0 || (|p.dat| == 2 && p.dat[0] == 0) {
      assert t.direct == s.direct + [id] && t.free == s.free;
    } else {
      assert t.free == s.free + [id] && t.direct == s.direct;
    }
    QueuesOnly(s, t, id);
  }

  /** Conservation when one record gives up `moved` to the free pool, which
      also takes the handled packet. */
  lemma RecordToFree(s: Snap, t: Snap, i: nat, r: TxRec, out: seq<PktId>, id: PktId)
    requires i < |s.txRecs| && t.txRecs == s.txRecs[i := r]
    requires RecIds(s.txRecs[i]) == RecIds(r) + multiset(out)
    requires t.free == s.free + out + [id]
    requires t.rxHead == s.rxHead && t.txHead == s.txHead && t.direct == s.direct
    ensures Held(t) == Held(s) + multiset{id}
  {
    TakeFromRec(s.txRecs, i, r, multiset(out));
    assert multiset(t.free) == multiset(s.free) + multiset(out) + multiset{id};
  }

  lemma AckConserves(s: Snap, id: PktId)
    requires SnapOk(s) && id < |s.arena| && |s.arena[id].dat| == 1
    ensures Held(AckEffect(s, id)) == Held(s) + multiset{id}
  {
    var t := AckEffect(s, id);
    var p := s.arena[id];
    var k := TxFindInput(s, p);
    if k < 0 || s.txRecs[s.txOrder[k]].p0Req.Some? {
      QueuesOnly(s, t, id);
    } else {
      var i := s.txOrder[k];
      var (r, freed) := Acked(s.txRecs[i], s.arena, p.dat[0]);
      assert RecIds(s.txRecs[i]) == RecIds(r) + multiset(freed);
      RecordToFree(s, t, i, r, freed, id);
    }
  }

  lemma RequestConserves(me: Addr, s: Snap, id: PktId)
    requires SnapOk(s) && id < |s.arena|
    ensures Held(RequestEffect(me, s, id)) == Held(s) + multiset{id}
  {
    if |s.arena[id].dat| == 1 {
      AckConserves(s, id);
    } else {
      ServiceConserves(me, s, id);
    }
  }

  lemma ReplyConserves(s: Snap, id: PktId)
    requires SnapOk(s) && id < |s.arena|
    ensures Held(ReplyEffect(s, id)) == Held(s) + multiset{id}
  {
    var t := ReplyEffect(s, id);
    if ReplyFits(s, s.arena[id]) {
      FittingReplyConserves(s, id);
    } else {
      assert t.free == s.free + [id];
      QueuesOnly(s, t, id);
    }
  }

  /** A fitting reply moves the record's freed packets, its request and the
      reply itself to the free pool, and nothing is lost on the way. */
  lemma FittingReplyConserves(s: Snap, id: PktId)
    requires SnapOk(s) && id < |s.arena| && ReplyFits(s, s.arena[id])
    ensures Held(ReplyEffect(s, id)) == Held(s) + multiset{id}
  {
    var t := ReplyEffect(s, id);
    var p := s.arena[id];
    var i := s.txOrder[TxFindInput(s, p)];
    var r := s.txRecs[i];
    var req := r.p0Req.value;
    ReplyKeeps(r, s.arena, |s.arena[req].dat|, p);
    var (r', freed) := Replied(r, s.arena, |s.arena[req].dat|, p);
    assert t == s.(txRecs := s.txRecs[i := r'], free := s.free + freed + [req, id]);
    assert t.free == s.free + (freed + [req]) + [id];
    RecordToFree(s, t, i, r', freed + [req], id);
  }

  /** The sequenced-receive check decides everything: a rejected packet is
      freed and nothing else changes; an accepted one goes to the upper
      layer, its sender's record expects the next number and becomes the
      most recently used, and an L1 port-0 ack carrying that number goes
      back to the sender when the packet asks for one and a packet is free
      (with none free, the packet is delivered unacknowledged). */
  lemma SeqRxOutcome(me: Addr, s: Snap, id: PktId)
    requires SnapOk(s) && id < |s.arena|
    ensures var p, t := s.arena[id], SeqRxEffect(me, s, id);
            !RxAccepts(s.rxRecs, s.rxOrder, p) ==> t == s.(free := s.free + [id])
    ensures var p, t := s.arena[id], SeqRxEffect(me, s, id);
            RxAccepts(s.rxRecs, s.rxOrder, p) ==>
              t.rxHead == s.rxHead + [id] &&
              t.rxOrder == MoveToFront(s.rxOrder, RxFind(s.rxRecs, s.rxOrder, p)) &&
              t.rxRecs[t.rxOrder[0]].seqNum == Advance(p.seqNum) &&
              (forall j :: 0 <= j < |s.rxRecs| && j != t.rxOrder[0] ==> t.rxRecs[j] == s.rxRecs[j]) &&
              t.txRecs == s.txRecs && t.txHead == s.txHead
    ensures var p, t := s.arena[id], SeqRxEffect(me, s, id);
            RxAccepts(s.rxRecs, s.rxOrder, p) && p.reqAck && s.free != [] ==>
              var a := s.free[0];
              t.free == s.free[1..] && t.direct == s.direct + [a] &&
              IsP0Request(t.arena[a]) && t.arena[a].level == L1 &&
              t.arena[a].dat == [Advance(p.seqNum)] && t.arena[a].dstMac == p.srcMac
    ensures var p, t := s.arena[id], SeqRxEffect(me, s, id);
            RxAccepts(s.rxRecs, s.rxOrder, p) && !(p.reqAck && s.free != []) ==>
              t.free == s.free && t.direct == s.direct && t.arena == s.arena
  {
    RxPoolOkOf(s);
  }

  /** The service of port 0: a query is answered in place, from port 0 back
      to the asking port, with the number the sender's record expects or
      0x80 when it has none, and the records stay as they are; a request
      that is neither a query nor a set request (`ServiceSetOutcome`) is
      freed.  Answers go on the direct queue. */
  lemma ServiceOutcome(me: Addr, s: Snap, id: PktId)
    requires SnapOk(s) && id < |s.arena| && IsP0Request(s.arena[id])
    ensures var p, t := s.arena[id], ServiceEffect(me, s, id);
            var k := RxFind(s.rxRecs, s.rxOrder, p);
            |p.dat| == 0 ==>
              t.direct == s.direct + [id] && t.free == s.free &&
              t.rxRecs == s.rxRecs && t.rxOrder == s.rxOrder &&
              t.arena[id].dat == [if k >= 0 then s.rxRecs[s.rxOrder[k]].seqNum else SEQ_UNSYNC] &&
              t.arena[id].srcPort == 0 && t.arena[id].dstPort == p.srcPort &&
              t.arena[id].dstMac == p.srcMac
    ensures var p, t := s.arena[id], ServiceEffect(me, s, id);
            |p.dat| != 0 && !(|p.dat| == 2 && p.dat[0] == 0) ==>
              t == s.(free := s.free + [id])
  {
    RxPoolOkOf(s);
  }

  /** The set request of port 0, `[0, n]`: the sender's record, or the least
      recently used one re-addressed to the sender, becomes the most
      recently used and expects `n`; no other record changes, and the
      request is answered in place with an empty payload on the direct
      queue. */
  lemma ServiceSetOutcome(me: Addr, s: Snap, id: PktId)
    requires SnapOk(s) && id < |s.arena| && IsP0Request(s.arena[id])
    requires |s.arena[id].dat| == 2 && s.arena[id].dat[0] == 0
    ensures var p, t := s.arena[id], ServiceEffect(me, s, id);
            t.direct == s.direct + [id] && t.free == s.free &&
            t.rxRecs[t.rxOrder[0]].seqNum == p.dat[1] &&
            t.rxOrder == MoveToFront(s.rxOrder, if RxFind(s.rxRecs, s.rxOrder, p) >= 0
                                                then RxFind(s.rxRecs, s.rxOrder, p) else |s.rxOrder| - 1) &&
            (forall j :: 0 <= j < |s.rxRecs| && j != t.rxOrder[0] ==> t.rxRecs[j] == s.rxRecs[j]) &&
            (!IsCast(p.multi) ==> AddrMatch(t.rxRecs[t.rxOrder[0]].addr, p, Src)) &&
            t.arena[id].dat == [] &&
            t.arena[id].srcPort == 0 && t.arena[id].dstPort == p.srcPort &&
            t.arena[id].dstMac == p.srcMac
  {
    RxPoolOkOf(s);
  }

  /** A cumulative ack for `n` from a peer with no record, or while the
      record has a control request outstanding, is freed and nothing else
      changes.  Otherwise the record's pending queue loses its head up to
      the first packet stamped `n` (all of it when none is), those packets
      are freed in order and then the ack, and no other record changes. */
  lemma AckOutcome(s: Snap, id: PktId)
    requires SnapOk(s) && id < |s.arena| && |s.arena[id].dat| == 1
    ensures var p, t := s.arena[id], AckEffect(s, id);
            var k := TxFindInput(s, p);
            k < 0 || s.txRecs[s.txOrder[k]].p0Req.Some? ==> t == s.(free := s.free + [id])
    ensures var p, t := s.arena[id], AckEffect(s, id);
            var k := TxFindInput(s, p);
            k >= 0 && s.txRecs[s.txOrder[k]].p0Req.None? ==>
              var i := s.txOrder[k];
              var r, r' := s.txRecs[i], t.txRecs[i];
              var c := |r.pend| - |r'.pend|;
              0 <= c && r'.pend == r.pend[c..] && r' == r.(pend := r'.pend) &&
              t.free == s.free + r.pend[..c] + [id] &&
              (r'.pend == [] || s.arena[r'.pend[0]].seqNum == p.dat[0]) &&
              (forall j :: 0 <= j < c ==> s.arena[r.pend[j]].seqNum != p.dat[0]) &&
              (forall j :: 0 <= j < |s.txRecs| && j != i ==> t.txRecs[j] == s.txRecs[j]) &&
              t == s.(txRecs := t.txRecs, free := t.free)
  {
    var p := s.arena[id];
    var k := TxFindInput(s, p);
    if k >= 0 && s.txRecs[s.txOrder[k]].p0Req.None? {
      var i := s.txOrder[k];
      var r := s.txRecs[i];
      var (r', freed) := Acked(r, s.arena, p.dat[0]);
      assert r.pend[..|freed|] == freed && r.pend[|freed|..] == r'.pend;
    }
  }

  /** A reply that does not fit the outstanding request is freed and nothing
      else changes.  A fitting one releases the request and clears the
      retry count, frees the request and then the reply, and changes no
      other record.  A query reply makes the record adopt the peer's number
      and leaves nothing pending: every pending packet the peer has not
      acknowledged goes back, in order, ahead of the wait queue.  A set
      reply with an empty payload frees the whole pending queue. */
  lemma ReplyOutcome(s: Snap, id: PktId)
    requires SnapOk(s) && id < |s.arena|
    ensures var p, t := s.arena[id], ReplyEffect(s, id);
            !ReplyFits(s, p) ==> t == s.(free := s.free + [id])
    ensures var p, t := s.arena[id], ReplyEffect(s, id);
            ReplyFits(s, p) ==>
              var i := s.txOrder[TxFindInput(s, p)];
              var r, r' := s.txRecs[i], t.txRecs[i];
              var req := r.p0Req.value;
              r'.p0Req == None && r'.retryCnt == 0 && r'.addr == r.addr &&
              |t.free| >= |s.free| + 2 && t.free[..|s.free|] == s.free &&
              t.free[|t.free| - 2..] == [req, id] &&
              (forall j :: 0 <= j < |s.txRecs| && j != i ==> t.txRecs[j] == s.txRecs[j]) &&
              t == s.(txRecs := t.txRecs, free := t.free)
    ensures var p, t := s.arena[id], ReplyEffect(s, id);
            ReplyFits(s, p) && |s.arena[s.txRecs[s.txOrder[TxFindInput(s, p)]].p0Req.value].dat| == 0 ==>
              var i := s.txOrder[TxFindInput(s, p)];
              var r, r' := s.txRecs[i], t.txRecs[i];
              r'.seqNum == p.dat[0] && r'.pend == [] &&
              t.free[|s.free|..|t.free| - 2] + r'.wait == r.pend + r.wait
    ensures var p, t := s.arena[id], ReplyEffect(s, id);
            ReplyFits(s, p) && |s.arena[s.txRecs[s.txOrder[TxFindInput(s, p)]].p0Req.value].dat| != 0 &&
            |p.dat| == 0 ==>
              var i := s.txOrder[TxFindInput(s, p)];
              var r := s.txRecs[i];
              t.txRecs[i] == r.(p0Req := None, retryCnt := 0, pend := []) &&
              t.free == s.free + r.pend + [r.p0Req.value, id]
  {
    var p := s.arena[id];
    if ReplyFits(s, p) {
      var i := s.txOrder[TxFindInput(s, p)];
      var r := s.txRecs[i];
      var req := r.p0Req.value;
      var (r', freed) := Replied(r, s.arena, |s.arena[req].dat|, p);
      var t := ReplyEffect(s, id);
      assert t.free == s.free + freed + [req, id];
      assert t.free[|s.free|..|t.free| - 2] == freed;
    }
  }

  /** Given a packet that nothing holds, each handler keeps every packet
      held at most once. */
  lemma HandlersKeepNoAlias(me: Addr, s: Snap, id: PktId)
    requires SnapOk(s) && id < |s.arena| && NoAlias(Held(s)) && Held(s)[id] == 0
    ensures NoAlias(Held(RequestEffect(me, s, id)))
    ensures NoAlias(Held(ReplyEffect(s, id)))
    ensures NoAlias(Held(SeqRxEffect(me, s, id)))
  {
    RequestConserves(me, s, id);
    ReplyConserves(s, id);
    SeqRxConserves(me, s, id);
    AddFresh(Held(s), id);
  }

  // ---------------------------------------------------------------------
  // The handlers

  /** `cdnet_seq_rx_handle`. */
  method SeqRxHandle(intf: Intf, id: PktId)
    requires intf.Valid() && id < |intf.arena|
    modifies intf`arena, intf`free, intf`rxHead, intf`directHead, intf`rxOrder, intf.rxRecs
    ensures intf.View() == SeqRxEffect(intf.me, old(intf.View()), id)
    ensures intf.Valid()
  {
    ghost var s := intf.View();
    RxPoolOkOf(s);
    var p := intf.arena[id];
    var k := FindRxRec(intf, p);
    assert RxFind(s.rxRecs, s.rxOrder, p) == k;
    if k < 0 || intf.rxRecs[intf.rxOrder[k]].seqNum != p.seqNum {
      intf.free := intf.free + [id];
      return;
    }
    var ri := intf.rxOrder[k];
    var n := Advance(intf.rxRecs[ri].seqNum);
    intf.rxRecs[ri] := intf.rxRecs[ri].(seqNum := n);
    if p.reqAck && intf.free != [] {
      var a := intf.free[0];
      intf.free := intf.free[1..];
      intf.arena := intf.arena[a := AckPacket(intf.me, p, intf.arena[a], n)];
      intf.directHead := intf.directHead + [a];
    }
    intf.rxOrder := MoveToFront(intf.rxOrder, k);
    intf.rxHead := intf.rxHead + [id];
    assert intf.rxRecs[..] == s.rxRecs[ri := s.rxRecs[ri].(seqNum := n)];
  }

  /** `cdnet_p0_service`. */
  method P0Service(intf: Intf, id: PktId)
    requires intf.Valid() && id < |intf.arena|
    modifies intf`arena, intf`free, intf`directHead, intf`rxOrder, intf.rxRecs
    ensures intf.View() == ServiceEffect(intf.me, old(intf.View()), id)
    ensures intf.Valid()
  {
    ghost var s := intf.View();
    RxPoolOkOf(s);
    var p := intf.arena[id];
    var k := FindRxRec(intf, p);
    assert RxFind(s.rxRecs, s.rxOrder, p) == k;
    if |p.dat| == 0 {
      var n := if k >= 0 then intf.rxRecs[intf.rxOrder[k]].seqNum else SEQ_UNSYNC;
      intf.arena := intf.arena[id := ExchgSrcDst(intf.me, p.(dat := [n]))];
      intf.directHead := intf.directHead + [id];
      return;
    }
    if |p.dat| == 2 && p.dat[0] == 0 {
      var ri, r, pos;
      if k >= 0 {
        ri, pos := intf.rxOrder[k], k;
        r := intf.rxRecs[ri].(seqNum := p.dat[1]);
      } else {
        pos := |intf.rxOrder| - 1;
        ri := intf.rxOrder[pos];
        r := RxRec(PeerAddr(p), p.dat[1]);
      }
      intf.rxRecs[ri] := r;
      intf.rxOrder := MoveToFront(intf.rxOrder, pos);
      assert intf.rxRecs[..] == s.rxRecs[ri := r];
      intf.arena := intf.arena[id := ExchgSrcDst(intf.me, p.(dat := []))];
      intf.directHead := intf.directHead + [id];
      return;
    }
    intf.free := intf.free + [id];
  }

  /** `cdnet_p0_request_handle`: a one-byte payload is an ack for this
      side's transmit records; anything else goes to the port-0 service. */
  method P0RequestHandle(intf: Intf, id: PktId)
    requires intf.Valid() && id < |intf.arena|
    modifies intf`arena, intf`free, intf`directHead, intf`rxOrder, intf.rxRecs, intf.txRecs
    ensures intf.View() == RequestEffect(intf.me, old(intf.View()), id)
    ensures intf.Valid()
  {
    ghost var s := intf.View();
    var p := intf.arena[id];
    if |p.dat| != 1 {
      P0Service(intf, id);
      return;
    }
    var k := FindTxRec(intf, p, Src);
    assert TxFindInput(s, p) == k;
    if k < 0 || intf.txRecs[intf.txOrder[k]].p0Req.Some? {
      intf.free := intf.free + [id];
      return;
    }
    var ri := intf.txOrder[k];
    var r := intf.txRecs[ri];
    var c := FindAckCut(r.pend, intf.arena, p.dat[0]);
    assert Acked(r, s.arena, p.dat[0]) == (r.(pend := r.pend[c..]), r.pend[..c]);
    intf.txRecs[ri] := r.(pend := r.pend[c..]);
    intf.free := intf.free + r.pend[..c] + [id];
    assert intf.txRecs[..] == s.txRecs[ri := r.(pend := r.pend[c..])];
  }

  /** `cdnet_p0_reply_handle`. */
  method P0ReplyHandle(intf: Intf, id: PktId)
    requires intf.Valid() && id < |intf.arena|
    modifies intf`free, intf.txRecs
    ensures intf.View() == ReplyEffect(old(intf.View()), id)
    ensures intf.Valid()
  {
    ghost var s := intf.View();
    var p := intf.arena[id];
    var k := FindTxRec(intf, p, Src);
    assert TxFindInput(s, p) == k;
    if k < 0 || intf.txRecs[intf.txOrder[k]].p0Req.None? {
      intf.free := intf.free + [id];
      return;
    }
    var ri := intf.txOrder[k];
    var r := intf.txRecs[ri];
    var req := r.p0Req.value;
    var reqLen := |intf.arena[req].dat|;
    if (reqLen == 0 && |p.dat| != 1) || (reqLen == 2 && |p.dat| != 0) {
      intf.free := intf.free + [id];
      return;
    }
    var r' := r.(p0Req := None, retryCnt := 0);
    var freed: seq<PktId> := [];
    if reqLen == 0 {
      var n := p.dat[0];
      var pend := r.pend;
      if !Unsync(n) {
        var c := FindAckCut(r.pend, intf.arena, n);
        freed, pend := r.pend[..c], r.pend[c..];
      }
      r' := r'.(seqNum := n, wait := pend + r.wait, pend := []);
    } else if |p.dat| == 0 {
      freed := r.pend;
      r' := r'.(pend := []);
    }
    assert Replied(r, s.arena, reqLen, p) == (r', freed);
    ReplyKeeps(r, s.arena, reqLen, p);
    intf.txRecs[ri] := r';
    intf.free := intf.free + freed + [req, id];
    assert intf.txRecs[..] == s.txRecs[ri := r'];
  }
}
