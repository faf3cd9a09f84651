/** The receive loop `cdnet_rx` of net/cdnet.c: while a free packet is
    available and the link has a frame, the frame is decoded into the first
    free packet, which is dropped back to the free pool on a decode error or
    when it is multicast, and otherwise routed to the port-0 request
    handler, the port-0 reply handler, the sequenced-receive handler or,
    for anything else, the upper layer's receive queue.  The frames the
    link hands up are a parameter. */
module CdnetRx {
  import opened CdnetTypes
  import opened CdnetPacket
  import opened SeqRecords
  import opened CdnetIntf
  import opened SeqRx

  /** One pass of the loop on frame `f`, with the first free packet. */
  function RxStep(me: Addr, s: Snap, f: Frame): (t: Snap)
    requires SnapOk(s) && s.free != []
    ensures SnapOk(t)
  {
    var id := s.free[0];
    var (ok, p) := DecodeFrame(f, s.arena[id]);
    var u := s.(free := s.free[1..], arena := s.arena[id := p]);
    if !ok || IsCast(p.multi) then u.(free := u.free + [id])
    else match RouteOf(p)
      case ToRequest => RequestEffect(me, u, id)
      case ToReply => ReplyEffect(u, id)
      case ToSeqRx => SeqRxEffect(me, u, id)
      case ToUpper => u.(rxHead := u.rxHead + [id])
  }

  /** The loop from frame `k` on: the state it leaves and the position of
      the first frame it did not take.  It leaves frames behind only when
      the free pool has run dry. */
  function RxLoop(me: Addr, s: Snap, frames: seq<Frame>, k: nat): (res: (Snap, nat))
    requires SnapOk(s) && k <= |frames|
    ensures SnapOk(res.0) && k <= res.1 <= |frames|
    ensures res.1 < |frames| ==> res.0.free == []
    decreases |frames| - k
  {
    if s.free == [] || k == |frames| then (s, k)
    else RxLoop(me, RxStep(me, s, frames[k]), frames, k + 1)
  }

  /** A frame that fails to decode, or that decodes to a multicast packet,
      reaches no handler: its packet goes to the back of the free pool and
      nothing else but that packet's contents changes. */
  lemma DropOutcome(me: Addr, s: Snap, f: Frame)
    requires SnapOk(s) && s.free != []
    requires var r := DecodeFrame(f, s.arena[s.free[0]]); !r.0 || IsCast(r.1.multi)
    ensures var t := RxStep(me, s, f);
            t.free == s.free[1..] + [s.free[0]] &&
            t == s.(free := t.free, arena := s.arena[s.free[0] := t.arena[s.free[0]]])
  {
  }

  /** A decoded unicast packet that is neither a port-0 request nor a reply
      nor sequenced goes to the back of the upper layer's receive queue. */
  lemma UpperOutcome(me: Addr, s: Snap, f: Frame)
    requires SnapOk(s) && s.free != []
    requires var r := DecodeFrame(f, s.arena[s.free[0]]);
             r.0 && !IsCast(r.1.multi) && !r.1.sequenced && !IsP0Request(r.1) && !IsP0Reply(r.1)
    ensures var t := RxStep(me, s, f);
            t.rxHead == s.rxHead + [s.free[0]] && t.free == s.free[1..] &&
            t.arena[s.free[0]] == DecodeFrame(f, s.arena[s.free[0]]).1 &&
            t.txRecs == s.txRecs && t.rxRecs == s.rxRecs && t.direct == s.direct
  {
  }

  /** Each pass only moves the packet it took: the interface holds the same
      packets afterwards. */
  lemma RxStepConserves(me: Addr, s: Snap, f: Frame)
    requires SnapOk(s) && s.free != []
    ensures Held(RxStep(me, s, f)) == Held(s)
  {
    var id := s.free[0];
    var (ok, p) := DecodeFrame(f, s.arena[id]);
    var u := s.(free := s.free[1..], arena := s.arena[id := p]);
    PopFree(s, u);
    if !ok || IsCast(p.multi) {
      PushBack(u, RxStep(me, s, f), id);
    } else {
      match RouteOf(p)
      case ToRequest => RequestConserves(me, u, id);
      case ToReply => ReplyConserves(u, id);
      case ToSeqRx => SeqRxConserves(me, u, id);
      case ToUpper => PushBack(u, RxStep(me, s, f), id);
    }
  }

  /** Taking the first free packet. */
  lemma PopFree(s: Snap, u: Snap)
    requires s.free != [] && u == s.(free := s.free[1..], arena := u.arena)
    ensures Held(u) + multiset{s.free[0]} == Held(s)
  {
    assert s.free == [s.free[0]] + u.free;
  }

  /** Appending a packet to the free pool or to the receive queue. */
  lemma PushBack(u: Snap, t: Snap, id: PktId)
    requires t == u.(free := u.free + [id]) || t == u.(rxHead := u.rxHead + [id])
    ensures Held(t) == Held(u) + multiset{id}
  {
  }

  /** The receive loop neither loses nor invents a packet. */
  lemma {:induction false} RxLoopConserves(me: Addr, s: Snap, frames: seq<Frame>, k: nat)
    requires SnapOk(s) && k <= |frames|
    ensures Held(RxLoop(me, s, frames, k).0) == Held(s)
    decreases |frames| - k
  {
    if s.free != [] && k < |frames| {
      RxStepConserves(me, s, frames[k]);
      RxLoopConserves(me, RxStep(me, s, frames[k]), frames, k + 1);
    }
  }

  /** The receive loop keeps every packet held at most once. */
  lemma RxLoopKeepsNoAlias(me: Addr, s: Snap, frames: seq<Frame>, k: nat)
    requires SnapOk(s) && k <= |frames| && NoAlias(Held(s))
    ensures NoAlias(Held(RxLoop(me, s, frames, k).0))
  {
    RxLoopConserves(me, s, frames, k);
  }

  /** One pass of `cdnet_rx`: takes the first free packet, decodes the
      frame into it and disposes of it. */
  method RxOne(intf: Intf, f: Frame)
    requires intf.Valid() && intf.free != []
    modifies intf`arena, intf`free, intf`rxHead, intf`directHead, intf`rxOrder, intf.rxRecs, intf.txRecs
    ensures intf.View() == RxStep(intf.me, old(intf.View()), f)
    ensures intf.Valid()
  {
    ghost var s := intf.View();
    var id := intf.free[0];
    intf.free := intf.free[1..];
    var (ok, p) := DecodeFrame(f, intf.arena[id]);
    intf.arena := intf.arena[id := p];
    ghost var u := s.(free := s.free[1..], arena := s.arena[id := p]);
    assert intf.View() == u;
    if !ok || IsCast(p.multi) {
      intf.free := intf.free + [id];
      return;
    }
    if p.level != L2 && p.dstPort == 0 && p.srcPort >= CDNET_DEF_PORT {
      P0RequestHandle(intf, id);
    } else if p.level != L2 && p.srcPort == 0 && p.dstPort == CDNET_DEF_PORT {
      P0ReplyHandle(intf, id);
    } else if p.sequenced {
      SeqRxHandle(intf, id);
    } else {
      intf.rxHead := intf.rxHead + [id];
    }
  }

  /** `cdnet_rx`: handles frames until the free pool or the frames run out;
      `used` is how many frames it took. */
  method Rx(intf: Intf, frames: seq<Frame>) returns (used: nat)
    requires intf.Valid()
    modifies intf`arena, intf`free, intf`rxHead, intf`directHead, intf`rxOrder, intf.rxRecs, intf.txRecs
    ensures (intf.View(), used) == RxLoop(intf.me, old(intf.View()), frames, 0)
    ensures intf.Valid()
  {
    used := 0;
    while intf.free != [] && used < |frames|
      invariant intf.Valid() && used <= |frames|
      invariant RxLoop(intf.me, intf.View(), frames, used) == RxLoop(intf.me, old(intf.View()), frames, 0)
      decreases |frames| - used
    {
      RxOne(intf, frames[used]);
      used := used + 1;
    }
  }
}
