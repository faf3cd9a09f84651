/** The packet-level helpers of net/cdnet.c: classifying a frame's addressing
    level, normalising the fields a level does not carry, choosing where an
    inbound packet is routed, and rewriting a packet's addressing so that it
    answers its sender (`cdnet_exchg_src_dst`) or leaves from this interface
    (`cdnet_fill_src_addr`). */
module CdnetPacket {
  import opened CdnetTypes

  /** The addressing level encoded in byte 3 of a frame. */
  function ClassifyLevel(b3: byte): (l: Level)
    ensures l == L2 <==> b3 >= 0xc0
    ensures l == L1 <==> 0x80 <= b3 < 0xc0
    ensures l == L0 <==> b3 < 0x80
  {
    if (b3 as bv8) & 0xc0 == 0xc0 then L2
    else if (b3 as bv8) & 0x80 != 0 then L1
    else L0
  }

  /** A packet carries no field its level does not support. */
  predicate Normal(p: Packet) {
    (p.level != L1 ==> p.multi == MULTI_NONE) &&
    (p.level != L2 ==> p.frag == FRAG_NONE && p.l2Flag == 0)
  }

  /** Clears the multicast/network flags outside L1 and the fragment fields
      outside L2. */
  function Normalize(p: Packet): (r: Packet)
    ensures Normal(r)
    ensures Normal(p) ==> r == p
    ensures r.level == p.level && r.sequenced == p.sequenced
    ensures r.srcMac == p.srcMac && r.dstMac == p.dstMac
    ensures r.srcPort == p.srcPort && r.dstPort == p.dstPort && r.dat == p.dat
    ensures r.srcAddr == p.srcAddr && r.dstAddr == p.dstAddr
    ensures r.seqNum == p.seqNum && r.reqAck == p.reqAck && r.sendTime == p.sendTime
    ensures p.level == L1 ==> r.multi == p.multi
    ensures p.level == L2 ==> r.frag == p.frag && r.l2Flag == p.l2Flag
    ensures r == p.(multi := r.multi, frag := r.frag, l2Flag := r.l2Flag)
  {
    var q := if p.level != L1 then p.(multi := MULTI_NONE) else p;
    if q.level != L2 then q.(frag := FRAG_NONE, l2Flag := 0) else q
  }

  /** What the link hands up: byte 3 of the frame, and what the codec of the
      level it names decodes the frame into (`None` for a decode error). */
  datatype Frame = Frame(hdr: byte, decoded: Option<Packet>)

  /** One decode step of `cdnet_rx`: the level is read from byte 3; L2 has no
      codec in this build and always fails; an L0 packet is never sequenced;
      the result is normalised whether or not decoding succeeded.  When
      decoding fails the packet keeps its previous contents. */
  function DecodeFrame(f: Frame, stale: Packet): (r: (bool, Packet))
    ensures Normal(r.1)
    ensures r.0 <==> ClassifyLevel(f.hdr) != L2 && f.decoded.Some?
    ensures ClassifyLevel(f.hdr) == L0 ==> !r.1.sequenced
    ensures r.0 && ClassifyLevel(f.hdr) == L1 ==> r.1 == Normalize(f.decoded.value)
    ensures r.0 && ClassifyLevel(f.hdr) == L0 ==> r.1 == Normalize(f.decoded.value.(sequenced := false))
  {
    var lvl := ClassifyLevel(f.hdr);
    var ok := lvl != L2 && f.decoded.Some?;
    var p := if ok then f.decoded.value else stale;
    var p' := if lvl == L0 then p.(sequenced := false) else p;
    (ok, Normalize(p'))
  }

  datatype Route = ToRequest | ToReply | ToSeqRx | ToUpper

  /** A port-0 request: to port 0 from the default port or above. */
  predicate IsP0Request(p: Packet) {
    p.level != L2 && p.dstPort == 0 && p.srcPort >= CDNET_DEF_PORT
  }

  /** A port-0 reply: from port 0 to the default port. */
  predicate IsP0Reply(p: Packet) {
    p.level != L2 && p.srcPort == 0 && p.dstPort == CDNET_DEF_PORT
  }

  /** Where `cdnet_rx` sends a packet that decoded without error and is not
      multicast. */
  function RouteOf(p: Packet): (r: Route)
    ensures r == ToRequest <==> IsP0Request(p)
    ensures r == ToReply <==> IsP0Reply(p) && !IsP0Request(p)
    ensures r == ToSeqRx <==> p.sequenced && !IsP0Request(p) && !IsP0Reply(p)
    ensures r == ToUpper <==> !p.sequenced && !IsP0Request(p) && !IsP0Reply(p)
  {
    if p.level != L2 && p.dstPort == 0 && p.srcPort >= CDNET_DEF_PORT then ToRequest
    else if p.level != L2 && p.srcPort == 0 && p.dstPort == CDNET_DEF_PORT then ToReply
    else if p.sequenced then ToSeqRx
    else ToUpper
  }

  /** Turns a packet around so that it answers its sender: the MACs swap (a
      resulting source of 255 becomes this interface's MAC), L1 network
      addresses swap (a multicast request is answered from this interface's
      own address, with the multicast bit cleared), and outside L2 the ports
      swap. */
  function ExchgSrcDst(me: Addr, p: Packet): (r: Packet)
    ensures r.dstMac == p.srcMac
    ensures r.srcMac == if p.dstMac == 255 then me.mac else p.dstMac
    ensures p.level == L1 && p.multi != MULTI_NONE ==> r.dstAddr == p.srcAddr
    ensures p.level == L1 && p.multi != MULTI_NONE ==>
              r.srcAddr == if IsCast(p.multi) then me else p.dstAddr
    ensures !IsCast(r.multi) || p.level != L1
    ensures p.level != L2 ==> r.srcPort == p.dstPort && r.dstPort == p.srcPort
    ensures p.level == L2 ==> r.srcPort == p.srcPort && r.dstPort == p.dstPort
    ensures r.level == p.level && r.sequenced == p.sequenced && r.dat == p.dat
    ensures r.seqNum == p.seqNum && r.reqAck == p.reqAck && r.sendTime == p.sendTime
    ensures r.multi == if p.level == L1 && p.multi != MULTI_NONE then ClearCast(p.multi) else p.multi
    ensures !(p.level == L1 && p.multi != MULTI_NONE) ==> r.srcAddr == p.srcAddr && r.dstAddr == p.dstAddr
    ensures r.frag == p.frag && r.l2Flag == p.l2Flag
  {
    var p1 := p.(srcMac := p.dstMac, dstMac := p.srcMac);
    var p2 := if p1.srcMac == 255 then p1.(srcMac := me.mac) else p1;
    var p3 :=
      if p2.level == L1 && p2.multi != MULTI_NONE then
        var q := p2.(srcAddr := p2.dstAddr, dstAddr := p2.srcAddr);
        if IsCast(q.multi) then q.(multi := ClearCast(q.multi), srcAddr := me) else q
      else p2;
    if p3.level != L2 then p3.(srcPort := p3.dstPort, dstPort := p3.srcPort) else p3
  }

  /** Stamps this interface as the sender: its MAC always, its address too
      for an L1 packet with network addressing. */
  function FillSrcAddr(me: Addr, p: Packet): (r: Packet)
    ensures r.srcMac == me.mac
    ensures p.level == L1 && p.multi >= MULTI_NET ==> r.srcAddr == me
    ensures !(p.level == L1 && p.multi >= MULTI_NET) ==> r.srcAddr == p.srcAddr
    ensures r.(srcMac := p.srcMac, srcAddr := p.srcAddr) == p
  {
    var q := p.(srcMac := me.mac);
    if q.level == L1 && q.multi >= MULTI_NET then q.(srcAddr := me) else q
  }

  /** Exchanging twice gives back the packet, as long as neither MAC is the
      broadcast value and the packet is not multicast: the two rewrites are
      inverse to each other on ordinary unicast packets. */
  lemma ExchgSrcDstInvolution(me: Addr, p: Packet)
    requires p.srcMac != 255 && p.dstMac != 255
    requires !IsCast(p.multi)
    ensures ExchgSrcDst(me, ExchgSrcDst(me, p)) == p
  {
    var q := ExchgSrcDst(me, p);
    assert q.multi == p.multi;
    assert q.srcAddr == (if p.level == L1 && p.multi != MULTI_NONE then p.dstAddr else p.srcAddr);
  }

  /** A reply built by exchanging a request's addressing is seen by the
      request's sender as coming from the peer it asked: the reply's source
      MAC is the request's destination (or this interface, for a broadcast
      request), and its destination MAC is the request's source. */
  lemma ReplyReturnsToSender(me: Addr, p: Packet)
    requires p.dstMac == 255 || p.dstMac == me.mac
    ensures ExchgSrcDst(me, p).srcMac == me.mac
    ensures ExchgSrcDst(me, p).dstMac == p.srcMac
  {
  }
}
