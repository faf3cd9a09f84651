/** Helpers of net/cdnet_seq.c shared by the receive handlers and the
    transmit routine: `cdnet_send_pkt`, the record lookups that walk a
    recency list, and the walk along a pending queue that finds where a
    cumulative ack stops. */
module SeqCommon {
  import opened CdnetTypes
  import opened SeqRecords
  import opened CdnetIntf

  /** The result `cdnet_send_pkt` reports for a packet, given what the link
      does next: -1 when no frame is free, 1 when the codec fails (always, for
      L2, which this build cannot encode), 0 when the frame is queued. */
  function SendOutcome(link: seq<TxOutcome>, p: Packet): (r: int)
    ensures r == -1 <==> link == [] || link[0] == NoFreeFrame
    ensures r == 0 <==> link != [] && link[0].Encoded? && p.level != L2
    ensures r == 1 <==> link != [] && (link[0].EncodeError? || (link[0].Encoded? && p.level == L2))
  {
    if link == [] then -1
    else match link[0]
      case NoFreeFrame => -1
      case EncodeError => 1
      case Encoded => if p.level == L2 then 1 else 0
  }

  /** The link after one send request. */
  function LinkAfter(link: seq<TxOutcome>): (l: seq<TxOutcome>)
    ensures link != [] ==> link == [link[0]] + l
    ensures link == [] ==> l == []
  {
    if link == [] then [] else link[1..]
  }

  /** `cdnet_send_pkt` on the interface state: the result, and the state in
      which the link has used up one outcome and, only for a packet queued
      for transmission, the packet has reached the wire.  No queue, record
      or packet changes. */
  function Sent(s: Snap, id: PktId): (res: (int, Snap))
    requires id < |s.arena|
    ensures res.0 == SendOutcome(s.link, s.arena[id])
    ensures res.1.link == LinkAfter(s.link)
    ensures res.1.wire == s.wire + if res.0 == 0 then [s.arena[id]] else []
    ensures res.1 == s.(link := res.1.link, wire := res.1.wire)
  {
    var r := SendOutcome(s.link, s.arena[id]);
    (r, s.(link := LinkAfter(s.link), wire := s.wire + if r == 0 then [s.arena[id]] else []))
  }

  /** `cdnet_send_pkt`: asks the link for a frame and encodes the packet into
      it. */
  method SendPkt(intf: Intf, id: PktId) returns (r: int)
    requires id < |intf.arena|
    modifies intf`link, intf`wire
    ensures (r, intf.View()) == Sent(old(intf.View()), id)
  {
    var p := intf.arena[id];
    r := -1;
    if intf.link != [] {
      var out := intf.link[0];
      intf.link := intf.link[1..];
      if out == Encoded && p.level != L2 {
        intf.wire := intf.wire + [p];
        r := 0;
      } else if out != NoFreeFrame {
        r := 1;
      }
    }
    if r != 0 {
      assert intf.wire == old(intf.wire) + [];
    }
  }

  /** The receive-record walk of `cdnet_p0_service` and
      `cdnet_seq_rx_handle`: the position along the recency list of the
      first record matching the packet's source, or -1. */
  method FindRxRec(intf: Intf, p: Packet) returns (k: int)
    requires intf.Valid()
    ensures k == Lookup(RxAddrs(intf.rxRecs[..]), intf.rxOrder, p, Src)
    ensures k >= 0 ==> AddrMatch(intf.rxRecs[intf.rxOrder[k]].addr, p, Src)
  {
    var pos := 0;
    while pos < |intf.rxOrder|
      invariant 0 <= pos <= |intf.rxOrder|
      invariant forall j :: 0 <= j < pos ==> !AddrMatch(intf.rxRecs[intf.rxOrder[j]].addr, p, Src)
    {
      if AddrMatch(intf.rxRecs[intf.rxOrder[pos]].addr, p, Src) {
        return pos;
      }
      pos := pos + 1;
    }
    return -1;
  }

  /** The transmit-record walks: by the packet's source for an inbound
      ack or reply (`is_tx_rec_match_input`), by its destination for an
      outbound packet (`is_tx_rec_match`). */
  method FindTxRec(intf: Intf, p: Packet, side: Side) returns (k: int)
    requires intf.Valid()
    ensures k == Lookup(TxAddrs(intf.txRecs[..]), intf.txOrder, p, side)
    ensures k >= 0 ==> AddrMatch(intf.txRecs[intf.txOrder[k]].addr, p, side)
  {
    var pos := 0;
    while pos < |intf.txOrder|
      invariant 0 <= pos <= |intf.txOrder|
      invariant forall j :: 0 <= j < pos ==> !AddrMatch(intf.txRecs[intf.txOrder[j]].addr, p, side)
    {
      if AddrMatch(intf.txRecs[intf.txOrder[pos]].addr, p, side) {
        return pos;
      }
      pos := pos + 1;
    }
    return -1;
  }

  /** The pending-queue walk of an ack: how many head packets to free before
      the first one stamped `k`. */
  method FindAckCut(pend: seq<PktId>, arena: seq<Packet>, k: byte) returns (c: nat)
    requires InArena(pend, |arena|)
    ensures c == AckCut(pend, arena, k)
  {
    c := 0;
    while c < |pend| && arena[pend[c]].seqNum != k
      invariant c <= |pend|
      invariant forall j :: 0 <= j < c ==> arena[pend[j]].seqNum != k
    {
      c := c + 1;
    }
  }
}
