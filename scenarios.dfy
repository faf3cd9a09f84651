/** Properties that connect the two ends of the sequenced transport: what a
    receiver does after the sender's set request and after a delivery, and
    what a cumulative ack from the receiver does to the sender's pending
    queue as the wait drain numbered it. */
module Scenarios {
  import opened CdnetTypes
  import opened SeqRecords
  import opened SeqRx
  import opened SeqTx

  /** The receiver of a set request for `n` then accepts the sender's
      sequenced packet stamped `n` and expects `n + 1` (mod 128) next.
      Multicast packets never reach the handlers, hence the first
      requirement. */
  lemma SetThenAccept(recs: seq<RxRec>, order: seq<nat>, p: Packet, q: Packet, n: byte)
    requires RxPoolOk(recs, order) && !IsCast(p.multi)
    requires q.multi == p.multi && q.srcMac == p.srcMac && q.srcAddr == p.srcAddr && q.seqNum == n
    ensures var r := RxSetSeq(recs, order, p, n);
            RxAccepts(r.0, r.1, q) &&
            RxAdvance(r.0, r.1, q).0[r.1[0]].seqNum == Advance(n)
  {
    var r := RxSetSeq(recs, order, p, n);
    var a := r.0[r.1[0]].addr;
    var k := RxFind(recs, order, p);
    if k < 0 {
      assert a == PeerAddr(p);
      assert p.multi == MULTI_NONE || p.multi == MULTI_NET;
    }
    assert AddrMatch(a, q, Src);
    assert RxFind(r.0, r.1, q) == 0;
  }

  /** A packet accepted once is not accepted again: the sender's record
      has moved on to the next number. */
  lemma DuplicateRejected(recs: seq<RxRec>, order: seq<nat>, p: Packet)
    requires RxPoolOk(recs, order) && RxAccepts(recs, order, p)
    ensures var r := RxAdvance(recs, order, p);
            !RxAccepts(r.0, r.1, p)
  {
    var r := RxAdvance(recs, order, p);
    assert AddrMatch(r.0[r.1[0]].addr, p, Src);
    assert RxFind(r.0, r.1, p) == 0;
  }

  /** On a record the wait drain numbered, an ack naming the number of the
      `m`-th oldest pending packet frees exactly the `m` packets before it. */
  lemma AckOnChain(r: TxRec, arena: seq<Packet>, m: nat)
    requires |r.pend| <= SEQ_TX_PEND_MAX + 1 && !Unsync(r.seqNum) && Chained(r, arena)
    requires m <= |r.pend|
    ensures Acked(r, arena, (r.seqNum + 128 - |r.pend| + m) % 128).1 == r.pend[..m]
  {
    CumulativeAck(r.pend, arena, r.seqNum + 128 - |r.pend|, m);
  }

  /** An ack naming the record's next number frees its whole pending
      queue. */
  lemma AckNextFreesAll(r: TxRec, arena: seq<Packet>)
    requires |r.pend| <= SEQ_TX_PEND_MAX + 1 && !Unsync(r.seqNum) && Chained(r, arena)
    ensures Acked(r, arena, r.seqNum).0.pend == []
  {
    var st := r.seqNum + 128 - |r.pend|;
    CumulativeAck(r.pend, arena, st, |r.pend|);
    assert (st + |r.pend|) % 128 == r.seqNum;
  }

  /** With the ack period of three, five sequenced sends from a fresh
      counter ask for an ack on the third only. */
  lemma FiveSends(r: TxRec)
    requires r.sendCnt == 0
    ensures forall k :: 0 <= k < 5 ==> (AckFlags(r, 5)[k] <==> k == 2)
  {
    forall k | 0 <= k < 5
      ensures AckFlags(r, 5)[k] <==> k == 2
    {
      AckPeriod(r, 5, k);
    }
  }
}
