/** `cdnet_seq_tx_routine` of net/cdnet_seq.c, the transmit side of the
    sequenced transport.  One call runs three phases: admission, which hands
    every packet the upper layer queued to a transmit record or to the direct
    queue; the direct drain, which sends the direct queue; and the record
    service, which walks the records from the most recently used and, for
    each, runs the control-request retry, the set-seq and query logic, and the
    wait-queue drain into the pending window.  Every phase is first stated as
    a pure effect on the interface state; the methods are proved to perform
    exactly those effects, and the lemmas state what the effects guarantee. */
module SeqTx {
  import opened CdnetTypes
  import opened CdnetPacket
  import opened SeqRecords
  import opened CdnetIntf
  import opened SeqCommon

  // ---------------------------------------------------------------------
  // Admission

  /** A packet as admission leaves it: an L0 packet is never sequenced, the
      fields its level does not carry are cleared, and a broadcast is not
      sequenced either. */
  function Prepared(p: Packet): (q: Packet)
    ensures Normal(q)
    ensures q.sequenced <==> p.sequenced && p.level != L0 && p.dstMac != 255
    ensures q.level == p.level && q.dstMac == p.dstMac && q.dstAddr == p.dstAddr
    ensures q.dat == p.dat && q.srcPort == p.srcPort && q.dstPort == p.dstPort
    ensures q.srcMac == p.srcMac && q.srcAddr == p.srcAddr
    ensures q.level == L1 ==> q.multi == p.multi
    ensures q == p.(sequenced := q.sequenced, multi := q.multi, frag := q.frag, l2Flag := q.l2Flag)
    ensures Normal(p) && !p.sequenced ==> q == p
  {
    var q := if p.level == L0 then p.(sequenced := false) else p;
    var q := Normalize(q);
    if q.sequenced && q.dstMac == 255 then q.(sequenced := false) else q
  }

  /** The address a recycled record is given for a packet's destination: the
      full address when the packet carries network or multicast flags,
      otherwise the MAC on the local network.  The record then matches the
      packet, except for a multicast packet without network addressing,
      which is matched by MAC. */
  function DstPeer(p: Packet): (a: Addr)
    ensures p.multi != MULTI_CAST ==> AddrMatch(a, p, Dst)
  {
    if p.multi != MULTI_NONE then p.dstAddr else Addr(255, p.dstMac)
  }

  /** A packet `id` joins the wait queue of the record at position `pos` of
      the recency list, and that record becomes the most recently used. */
  function JoinWait(s: Snap, pos: nat, id: PktId): (t: Snap)
    requires SnapOk(s) && pos < |s.txOrder| && id < |s.arena|
    ensures SnapOk(t)
    ensures t == s.(txRecs := t.txRecs, txOrder := t.txOrder)
    ensures t.txOrder == MoveToFront(s.txOrder, pos)
    ensures t.txRecs == s.txRecs[s.txOrder[pos] := s.txRecs[s.txOrder[pos]].(wait := s.txRecs[s.txOrder[pos]].wait + [id])]
  {
    var i := s.txOrder[pos];
    var r := s.txRecs[i];
    MoveToFrontIsPerm(s.txOrder, pos, SEQ_TX_REC_MAX);
    s.(txRecs := s.txRecs[i := r.(wait := r.wait + [id])], txOrder := MoveToFront(s.txOrder, pos))
  }

  /** The least recently used record, known not to be in use, is reset
      (`memset`), addressed to `peer` with an unsynchronised sequence number,
      given the packet `id` to wait and made the most recently used. */
  function Recycle(s: Snap, id: PktId, peer: Addr): (t: Snap)
    requires SnapOk(s) && id < |s.arena|
    ensures SnapOk(t)
    ensures t == s.(txRecs := t.txRecs, txOrder := t.txOrder)
    ensures t.txOrder == MoveToFront(s.txOrder, |s.txOrder| - 1)
    ensures t.txRecs == s.txRecs[t.txOrder[0] := TX_REC_ZERO.(addr := peer, seqNum := SEQ_UNSYNC, wait := [id])]
  {
    var last := |s.txOrder| - 1;
    MoveToFrontIsPerm(s.txOrder, last, SEQ_TX_REC_MAX);
    s.(txRecs := s.txRecs[s.txOrder[last] := TX_REC_ZERO.(addr := peer, seqNum := SEQ_UNSYNC, wait := [id])],
       txOrder := MoveToFront(s.txOrder, last))
  }

  /** The record position a packet's destination is looked up at. */
  function TxFind(s: Snap, p: Packet): (k: int)
    requires SnapOk(s)
    ensures -1 <= k < |s.txOrder|
    ensures k >= 0 ==> AddrMatch(s.txRecs[s.txOrder[k]].addr, p, Dst)
    ensures k >= 0 ==> forall j :: 0 <= j < k ==> !AddrMatch(s.txRecs[s.txOrder[j]].addr, p, Dst)
    ensures k < 0 ==> forall j :: 0 <= j < |s.txOrder| ==> !AddrMatch(s.txRecs[s.txOrder[j]].addr, p, Dst)
  {
    Lookup(TxAddrs(s.txRecs), s.txOrder, p, Dst)
  }

  /** The send queue without its head, which has been prepared in place. */
  function TakeHead(s: Snap): (u: Snap)
    requires SnapOk(s) && s.txHead != []
    ensures SnapOk(u)
    ensures u == s.(arena := s.arena[s.txHead[0] := Prepared(s.arena[s.txHead[0]])], txHead := s.txHead[1..])
  {
    var id := s.txHead[0];
    s.(arena := s.arena[id := Prepared(s.arena[id])], txHead := s.txHead[1..])
  }

  /** One turn of the admission loop, on the head `id` of the send queue.
      The prepared packet joins the wait queue of the record of its
      destination when it is sequenced or that record is in use; an
      unsequenced packet otherwise goes to the direct queue; a sequenced
      packet to a peer without a record takes over the least recently used
      record, unless that record is in use, in which case the packet stays
      at the head of the send queue and admission stops (`go` is false). */
  function AdmitStep(s: Snap): (res: (Snap, bool))
    requires SnapOk(s) && s.txHead != []
    ensures SnapOk(res.0)
    ensures res.1 ==> res.0.txHead == s.txHead[1..]
    ensures !res.1 ==> res.0.txHead == s.txHead
  {
    var id := s.txHead[0];
    var p := Prepared(s.arena[id]);
    var u := TakeHead(s);
    var k := TxFind(u, p);
    if k >= 0 && (p.sequenced || InUse(u.txRecs[u.txOrder[k]])) then
      (JoinWait(u, k, id), true)
    else if !p.sequenced then
      (u.(direct := u.direct + [id]), true)
    else if InUse(u.txRecs[u.txOrder[|u.txOrder| - 1]]) then
      (s.(arena := u.arena), false)
    else
      (Recycle(u, id, DstPeer(p)), true)
  }

  /** The admission loop: steps until the send queue is empty or a step
      stops it. */
  function AdmitAll(s: Snap): (t: Snap)
    requires SnapOk(s)
    ensures SnapOk(t)
    decreases |s.txHead|
  {
    if s.txHead == [] then s
    else
      var (u, go) := AdmitStep(s);
      if go then AdmitAll(u) else u
  }

  /** Admission is blocked: the head of the send queue is a sequenced packet
      to a peer without a record, and the least recently used record, the
      only one it could take over, is in use. */
  predicate Blocked(s: Snap)
    requires SnapOk(s)
  {
    s.txHead != [] &&
    var p := s.arena[s.txHead[0]];
    p.sequenced && TxFind(s, p) < 0 && InUse(s.txRecs[s.txOrder[|s.txOrder| - 1]])
  }

  // ---------------------------------------------------------------------
  // What admission guarantees

  /** Admission only stops early for back-pressure: afterwards the send
      queue is empty or blocked. */
  lemma {:induction false} AdmitAllDrains(s: Snap)
    requires SnapOk(s)
    ensures AdmitAll(s).txHead == [] || Blocked(AdmitAll(s))
    decreases |s.txHead|
  {
    if s.txHead != [] {
      var (u, go) := AdmitStep(s);
      if go {
        AdmitAllDrains(u);
      } else {
        var id := s.txHead[0];
        var p := Prepared(s.arena[id]);
        assert u.arena[id] == p;
      }
    }
  }

  /** The record at the front of the recency list has `id` last in its
      wait queue. */
  predicate WaitsLast(t: Snap, id: PktId)
    requires SnapOk(t)
  {
    var r := t.txRecs[t.txOrder[0]];
    r.wait != [] && r.wait[|r.wait| - 1] == id
  }

  /** Admission stops exactly when it is blocked: the prepared head is a
      sequenced packet whose destination has no record, and the least
      recently used record is in use.  The packet then stays, prepared, at
      the head of the send queue, and nothing else changes. */
  lemma AdmitStops(s: Snap)
    requires SnapOk(s) && s.txHead != []
    ensures var p := Prepared(s.arena[s.txHead[0]]);
            !AdmitStep(s).1 <==>
              p.sequenced && TxFind(s, p) < 0 && InUse(s.txRecs[s.txOrder[|s.txOrder| - 1]])
    ensures !AdmitStep(s).1 ==>
              AdmitStep(s).0 == s.(arena := s.arena[s.txHead[0] := Prepared(s.arena[s.txHead[0]])])
  {
    var p := Prepared(s.arena[s.txHead[0]]);
    assert TxFind(TakeHead(s), p) == TxFind(s, p);
  }

  /** Where admission puts a sequenced packet: last in the wait queue of the
      record that is now the most recently used, a record addressed to the
      packet's destination unless the packet is multicast without network
      addressing (the record is then keyed by the full address while the
      packet is matched by MAC). */
  lemma AdmitSequenced(s: Snap)
    requires SnapOk(s) && s.txHead != [] && AdmitStep(s).1
    requires Prepared(s.arena[s.txHead[0]]).sequenced
    ensures var t, p := AdmitStep(s).0, Prepared(s.arena[s.txHead[0]]);
            WaitsLast(t, s.txHead[0]) &&
            (p.multi != MULTI_CAST ==> AddrMatch(t.txRecs[t.txOrder[0]].addr, p, Dst))
  {
    var id := s.txHead[0];
    var p := Prepared(s.arena[id]);
    var u := TakeHead(s);
    var k := TxFind(u, p);
    if k >= 0 {
      assert AdmitStep(s).0 == JoinWait(u, k, id);
      JoinedLast(u, k, id);
      assert AddrMatch(u.txRecs[u.txOrder[k]].addr, p, Dst);
    } else {
      assert AdmitStep(s).0 == Recycle(u, id, DstPeer(p));
      RecycledLast(u, id, DstPeer(p));
    }
  }

  /** The packet that joins a wait queue is last in it, and its record is
      at the front of the recency list with its address unchanged. */
  lemma JoinedLast(s: Snap, pos: nat, id: PktId)
    requires SnapOk(s) && pos < |s.txOrder| && id < |s.arena|
    ensures var t := JoinWait(s, pos, id);
            WaitsLast(t, id) && t.txRecs[t.txOrder[0]].addr == s.txRecs[s.txOrder[pos]].addr
  {
    var t := JoinWait(s, pos, id);
    assert t.txOrder[0] == s.txOrder[pos];
  }

  /** The packet given to a recycled record is its only waiting packet, and
      the record, now at the front of the recency list, has the new peer. */
  lemma RecycledLast(s: Snap, id: PktId, peer: Addr)
    requires SnapOk(s) && id < |s.arena|
    ensures var t := Recycle(s, id, peer);
            WaitsLast(t, id) && t.txRecs[t.txOrder[0]].addr == peer
  {
    var t := Recycle(s, id, peer);
    assert t.txRecs[t.txOrder[0]] == TX_REC_ZERO.(addr := peer, seqNum := SEQ_UNSYNC, wait := [id]);
  }

  /** Where admission puts an unsequenced packet: on the direct queue, or,
      when the record of its destination is in use, last in that record's
      wait queue so that it leaves after the packets queued before it. */
  lemma AdmitUnsequenced(s: Snap)
    requires SnapOk(s) && s.txHead != []
    requires !Prepared(s.arena[s.txHead[0]]).sequenced
    ensures var t, p := AdmitStep(s).0, Prepared(s.arena[s.txHead[0]]);
            AdmitStep(s).1 &&
            (t.direct == s.direct + [s.txHead[0]] ||
             (WaitsLast(t, s.txHead[0]) && AddrMatch(t.txRecs[t.txOrder[0]].addr, p, Dst)))
  {
    var id := s.txHead[0];
    var p := Prepared(s.arena[id]);
    var u := TakeHead(s);
    var k := TxFind(u, p);
    if k >= 0 && InUse(u.txRecs[u.txOrder[k]]) {
      assert AdmitStep(s).0 == JoinWait(u, k, id);
    } else {
      assert AdmitStep(s).0 == u.(direct := u.direct + [id]);
    }
  }

  /** Taking the head of the send queue. */
  lemma PopHolds(s: Snap, u: Snap)
    requires s.txHead != [] && u == s.(arena := u.arena, txHead := s.txHead[1..])
    ensures Held(s) == Held(u) + multiset{s.txHead[0]}
  {
    var h := s.txHead[0];
    assert s.txHead == [h] + u.txHead;
    assert QueueIds(s) == QueueIds(u) + multiset{h};
  }

  lemma JoinWaitHolds(s: Snap, pos: nat, id: PktId)
    requires SnapOk(s) && pos < |s.txOrder| && id < |s.arena|
    ensures Held(JoinWait(s, pos, id)) == Held(s) + multiset{id}
  {
    var t := JoinWait(s, pos, id);
    var i := s.txOrder[pos];
    GiveToRec(s.txRecs, i, t.txRecs[i], multiset{id});
    assert QueueIds(t) == QueueIds(s);
  }

  lemma RecycleHolds(s: Snap, id: PktId, peer: Addr)
    requires SnapOk(s) && id < |s.arena| && !InUse(s.txRecs[s.txOrder[|s.txOrder| - 1]])
    ensures Held(Recycle(s, id, peer)) == Held(s) + multiset{id}
  {
    var t := Recycle(s, id, peer);
    var i := s.txOrder[|s.txOrder| - 1];
    assert RecIds(s.txRecs[i]) == multiset{};
    GiveToRec(s.txRecs, i, t.txRecs[i], multiset{id});
    assert QueueIds(t) == QueueIds(s);
  }

  lemma DirectHolds(s: Snap, id: PktId)
    ensures Held(s.(direct := s.direct + [id])) == Held(s) + multiset{id}
  {
    var t := s.(direct := s.direct + [id]);
    assert QueueIds(t) == QueueIds(s) + multiset{id};
  }

  /** One packet changing hands between two holders. */
  lemma MoveOne(qs: multiset<PktId>, qt: multiset<PktId>, rs: multiset<PktId>, rt: multiset<PktId>, h: PktId)
    requires qs == qt + multiset{h} && rt == rs + multiset{h}
    ensures qt + rt == qs + rs
  {
  }

  /** Admission only moves packets: the interface holds the same ones. */
  lemma AdmitStepConserves(s: Snap)
    requires SnapOk(s) && s.txHead != []
    ensures Held(AdmitStep(s).0) == Held(s)
  {
    var id := s.txHead[0];
    var p := Prepared(s.arena[id]);
    var u := TakeHead(s);
    var t := AdmitStep(s).0;
    PopHolds(s, u);
    var k := TxFind(u, p);
    if k >= 0 && (p.sequenced || InUse(u.txRecs[u.txOrder[k]])) {
      assert t == JoinWait(u, k, id);
      JoinWaitHolds(u, k, id);
    } else if !p.sequenced {
      assert t == u.(direct := u.direct + [id]);
      DirectHolds(u, id);
    } else if !InUse(u.txRecs[u.txOrder[|u.txOrder| - 1]]) {
      assert t == Recycle(u, id, DstPeer(p));
      RecycleHolds(u, id, DstPeer(p));
    } else {
      assert t == s.(arena := u.arena);
      assert QueueIds(t) == QueueIds(s);
      return;
    }
  }

  lemma {:induction false} AdmitAllConserves(s: Snap)
    requires SnapOk(s)
    ensures Held(AdmitAll(s)) == Held(s)
    decreases |s.txHead|
  {
    if s.txHead != [] {
      AdmitStepConserves(s);
      var (u, go) := AdmitStep(s);
      if go {
        AdmitAllConserves(u);
      }
    }
  }

  // ---------------------------------------------------------------------
  // The direct drain

  /** One send from the direct queue: the head is handed to the link; on -1
      (no free frame) it stays where it is, otherwise it is freed whether or
      not the codec accepted it. */
  function DirectStep(s: Snap): (res: (Snap, int))
    requires SnapOk(s) && s.direct != []
    ensures SnapOk(res.0)
    ensures res.1 == SendOutcome(s.link, s.arena[s.direct[0]])
    ensures res.1 < 0 ==> res.0.direct == s.direct && res.0.free == s.free
    ensures res.1 >= 0 ==> res.0.direct == s.direct[1..] && res.0.free == s.free + [s.direct[0]]
  {
    var id := s.direct[0];
    var (ret, u) := Sent(s, id);
    if ret < 0 then (u, ret)
    else (u.(direct := u.direct[1..], free := u.free + [id]), ret)
  }

  /** The direct drain: sends until the queue is empty (`ok`) or the link
      has no free frame, which ends the whole routine. */
  function DirectDrained(s: Snap): (res: (Snap, bool))
    requires SnapOk(s)
    ensures SnapOk(res.0)
    ensures res.1 <==> res.0.direct == []
    decreases |s.direct|
  {
    if s.direct == [] then (s, true)
    else
      var (u, ret) := DirectStep(s);
      if ret < 0 then (u, false) else DirectDrained(u)
  }

  // ---------------------------------------------------------------------
  // The record service

  /** `t` differs from `s` at most in transmit record `i`, the arena, the
      free pool and the link. */
  predicate OnlyRec(s: Snap, t: Snap, i: nat) {
    |t.txRecs| == |s.txRecs| && i < |s.txRecs| &&
    (forall j :: 0 <= j < |s.txRecs| && j != i ==> t.txRecs[j] == s.txRecs[j]) &&
    t.txOrder == s.txOrder && t.rxRecs == s.rxRecs && t.rxOrder == s.rxOrder &&
    t.rxHead == s.rxHead && t.txHead == s.txHead && t.direct == s.direct
  }

  /** Retry exhausted: the record gives its pending packets, its waiting
      packets and its request back to the free pool, in that order, and
      starts over unsynchronised. */
  function Flushed(s: Snap, i: nat): (t: Snap)
    requires SnapOk(s) && i < |s.txRecs| && s.txRecs[i].p0Req.Some?
    ensures SnapOk(t)
    ensures !InUse(t.txRecs[i]) && t.txRecs[i].seqNum == SEQ_UNSYNC
    ensures t == s.(txRecs := t.txRecs, free := t.free)
  {
    var r := s.txRecs[i];
    s.(txRecs := s.txRecs[i := r.(pend := [], wait := [], p0Req := None, retryCnt := 0, seqNum := SEQ_UNSYNC)],
       free := s.free + r.pend + r.wait + [r.p0Req.value])
  }

  /** The outstanding request is sent again; only when the link takes it is
      it restamped and its retry counted. */
  function Resent(s: Snap, now: u32, i: nat): (t: Snap)
    requires SnapOk(s) && i < |s.txRecs| && s.txRecs[i].p0Req.Some?
    requires s.txRecs[i].retryCnt < SEQ_TX_RETRY_MAX
    ensures SnapOk(t)
    ensures t.txOrder == s.txOrder && t.free == s.free && t.direct == s.direct
    ensures t.txRecs[i] == s.txRecs[i] || t.txRecs[i] == s.txRecs[i].(retryCnt := s.txRecs[i].retryCnt + 1)
    ensures var r, req := s.txRecs[i], s.txRecs[i].p0Req.value;
            SendOutcome(s.link, s.arena[req]) == 0 ==>
              t.arena == s.arena[req := s.arena[req].(sendTime := now)] &&
              t.txRecs[i] == r.(retryCnt := r.retryCnt + 1)
    ensures var r, req := s.txRecs[i], s.txRecs[i].p0Req.value;
            SendOutcome(s.link, s.arena[req]) != 0 ==> t.arena == s.arena && t.txRecs[i] == r
  {
    var r := s.txRecs[i];
    var req := r.p0Req.value;
    var (ret, u) := Sent(s, req);
    if ret == 0 then
      u.(arena := u.arena[req := u.arena[req].(sendTime := now)],
         txRecs := u.txRecs[i := r.(retryCnt := r.retryCnt + 1)])
    else u
  }

  /** A record with a request outstanding: nothing happens until the request
      has waited longer than `SEQ_TIMEOUT` times one more than its retries;
      then it is resent, or, once the retries reach `SEQ_TX_RETRY_MAX`, the
      record is flushed. */
  function RetryEffect(s: Snap, now: u32, i: nat): (t: Snap)
    requires SnapOk(s) && i < |s.txRecs| && s.txRecs[i].p0Req.Some?
    ensures SnapOk(t)
    ensures t.txOrder == s.txOrder
    ensures OnlyRec(s, t, i)
  {
    var r := s.txRecs[i];
    if !TimedOut(now, s.arena[r.p0Req.value].sendTime, SEQ_TIMEOUT * (r.retryCnt + 1)) then s
    else if r.retryCnt >= SEQ_TX_RETRY_MAX then Flushed(s, i)
    else Resent(s, now, i)
  }

  /** A port-0 request built in a free packet for the peer `addr` of a
      record: L1, unsequenced, addressed by MAC on the local network or by
      full address otherwise, from this interface's default port to port 0,
      carrying `dat`. */
  function ControlReq(me: Addr, stale: Packet, addr: Addr, dat: seq<byte>): (q: Packet)
    ensures IsP0Request(q) && q.level == L1 && !q.sequenced && q.dat == dat
    ensures AddrMatch(addr, q, Dst) && q.srcMac == me.mac
    ensures q.srcPort == CDNET_DEF_PORT && q.dstPort == 0
  {
    var h := stale.(level := L1, sequenced := false);
    var h := if addr.net == 255 then h.(multi := MULTI_NONE) else h.(multi := MULTI_NET, dstAddr := addr);
    FillSrcAddr(me, h.(dstMac := addr.mac)).(srcPort := CDNET_DEF_PORT, dstPort := 0, dat := dat)
  }

  /** A free packet becomes the record `r`'s outstanding request and is
      handed to the link; also the result of the send. */
  function IssueReq(me: Addr, s: Snap, i: nat, dat: seq<byte>, r: TxRec): (res: (Snap, int))
    requires SnapOk(s) && i < |s.txRecs| && s.free != []
    requires TxRecOk(r, |s.arena|) && RecIds(r) == RecIds(s.txRecs[i]) && r.p0Req.None?
    ensures SnapOk(res.0)
    ensures res.0.txOrder == s.txOrder && res.0.direct == s.direct && res.0.free == s.free[1..]
    ensures res.0.rxHead == s.rxHead && res.0.txHead == s.txHead
    ensures res.0.txRecs == s.txRecs[i := r.(p0Req := Some(s.free[0]))]
    ensures |res.0.arena| == |s.arena|
    ensures var q := res.0.arena[s.free[0]];
            IsP0Request(q) && q.dat == dat && AddrMatch(r.addr, q, Dst)
    ensures res.1 == SendOutcome(s.link, res.0.arena[s.free[0]])
    ensures res.1 == 0 ==> res.0.wire == s.wire + [res.0.arena[s.free[0]]]
    ensures res.1 != 0 ==> res.0.wire == s.wire
  {
    var id := s.free[0];
    var q := ControlReq(me, s.arena[id], r.addr, dat);
    var u := s.(free := s.free[1..], arena := s.arena[id := q], txRecs := s.txRecs[i := r.(p0Req := Some(id))]);
    var (ret, v) := Sent(u, id);
    (v, ret)
  }

  /** Sets the send time of packet `id`. */
  function Stamp(s: Snap, id: PktId, time: u32): (t: Snap)
    requires SnapOk(s) && id < |s.arena|
    ensures SnapOk(t)
    ensures t == s.(arena := s.arena[id := s.arena[id].(sendTime := time)])
  {
    s.(arena := s.arena[id := s.arena[id].(sendTime := time)])
  }

  /** An unsynchronised record with packets to send: a set request for
      sequence number 0 (payload `[0, 0]`) becomes its outstanding request
      and the record expects to number from 0.  The request is stamped
      `now` when the link took it and `SEQ_TIMEOUT` earlier otherwise, so
      that a failed send is retried at once.  Without a free packet nothing
      happens. */
  function SetSeqEffect(me: Addr, s: Snap, now: u32, i: nat): (t: Snap)
    requires SnapOk(s) && i < |s.txRecs| && s.txRecs[i].p0Req.None?
    ensures SnapOk(t)
    ensures t.txOrder == s.txOrder
    ensures OnlyRec(s, t, i)
  {
    if s.free == [] then s
    else
      var id := s.free[0];
      var (u, ret) := IssueReq(me, s, i, [0, 0], s.txRecs[i].(seqNum := 0));
      Stamp(u, id, if ret == 0 then now else Rewind(now, SEQ_TIMEOUT))
  }

  /** How the service of one record goes on after the pending check: on to
      the wait drain, straight to the next record, or out of the routine. */
  datatype Flow = Drain | Next | Abort

  /** The pending check: when the oldest pending packet has waited longer
      than `SEQ_TIMEOUT`, a query (empty payload) becomes the outstanding
      request and the ack-request counter restarts.  Without a free packet
      the record is left for this round; when the link has no free frame
      the request is stamped `SEQ_TIMEOUT` earlier and the routine ends.
      Otherwise, and also after a query was sent, the wait drain follows. */
  function CheckEffect(me: Addr, s: Snap, now: u32, i: nat): (res: (Snap, Flow))
    requires SnapOk(s) && i < |s.txRecs| && s.txRecs[i].p0Req.None?
    ensures SnapOk(res.0)
    ensures res.0.txOrder == s.txOrder
    ensures OnlyRec(s, res.0, i)
    ensures res.1 != Drain || res.0.txRecs[i].p0Req.Some? ==> res.0.txRecs[i].pend != []
  {
    var r := s.txRecs[i];
    if r.pend == [] || !TimedOut(now, s.arena[r.pend[0]].sendTime, SEQ_TIMEOUT) then (s, Drain)
    else if s.free == [] then (s, Next)
    else
      var id := s.free[0];
      var (u, ret) := IssueReq(me, s, i, [], r.(sendCnt := 0));
      if ret >= 0 then (Stamp(u, id, now), Drain)
      else (Stamp(u, id, Rewind(now, SEQ_TIMEOUT)), Abort)
  }

  /** The stamping of a packet about to leave a record's wait queue: a
      sequenced packet takes the record's number and asks for an ack every
      `SEQ_TX_ACK_CNT`-th time; an unsequenced one is left alone. */
  function Stamped(p: Packet, r: TxRec): (res: (Packet, TxRec))
    requires r.sendCnt < SEQ_TX_ACK_CNT
    ensures !p.sequenced ==> res == (p, r)
    ensures p.sequenced ==> res.0 == p.(seqNum := r.seqNum, reqAck := r.sendCnt == SEQ_TX_ACK_CNT - 1)
    ensures p.sequenced ==> res.1 == r.(sendCnt := (r.sendCnt + 1) % SEQ_TX_ACK_CNT)
  {
    if p.sequenced then
      var c := r.sendCnt + 1;
      if c == SEQ_TX_ACK_CNT then (p.(seqNum := r.seqNum, reqAck := true), r.(sendCnt := 0))
      else (p.(seqNum := r.seqNum, reqAck := false), r.(sendCnt := c))
    else (p, r)
  }

  /** One send from record `i`'s wait queue, whose window has room.  On -1
      the head stays (stamped); on 0 a sequenced packet moves to the end of
      the pending window, stamped `now`, and the record's number advances;
      any other packet leaves the record and is freed. */
  function WaitStep(s: Snap, now: u32, i: nat): (res: (Snap, int))
    requires SnapOk(s) && i < |s.txRecs|
    requires s.txRecs[i].wait != [] && |s.txRecs[i].pend| <= SEQ_TX_PEND_MAX
    ensures SnapOk(res.0)
    ensures res.0.txOrder == s.txOrder
    ensures OnlyRec(s, res.0, i)
    ensures res.1 >= 0 ==> res.0.txRecs[i].wait == s.txRecs[i].wait[1..]
    ensures res.1 < 0 ==> res.0.txRecs[i].wait == s.txRecs[i].wait && res.0.txRecs[i].pend == s.txRecs[i].pend
    ensures res.0.txRecs == s.txRecs[i := res.0.txRecs[i]]
    ensures res.0.rxHead == s.rxHead && res.0.txHead == s.txHead && res.0.direct == s.direct
  {
    var r := s.txRecs[i];
    var id := r.wait[0];
    var (p, r1) := Stamped(s.arena[id], r);
    var u := s.(arena := s.arena[id := p], txRecs := s.txRecs[i := r1]);
    var (ret, v) := Sent(u, id);
    if ret < 0 then (v, ret)
    else if ret == 0 && p.sequenced then
      (v.(arena := v.arena[id := p.(sendTime := now)],
          txRecs := v.txRecs[i := r1.(wait := r1.wait[1..], pend := r1.pend + [id], seqNum := Advance(r1.seqNum))]), ret)
    else
      (v.(txRecs := v.txRecs[i := r1.(wait := r1.wait[1..])], free := v.free + [id]), ret)
  }

  /** The wait drain: sends until the wait queue is empty or the window is
      full (`ok`), or the link has no free frame, which ends the routine. */
  function WaitDrained(s: Snap, now: u32, i: nat): (res: (Snap, bool))
    requires SnapOk(s) && i < |s.txRecs|
    ensures SnapOk(res.0)
    ensures res.0.txOrder == s.txOrder
    ensures OnlyRec(s, res.0, i)
    ensures res.1 ==> res.0.txRecs[i].wait == [] || |res.0.txRecs[i].pend| == SEQ_TX_PEND_MAX + 1
    ensures !res.1 ==> res.0.txRecs[i].wait != [] && |res.0.txRecs[i].pend| <= SEQ_TX_PEND_MAX
    decreases |s.txRecs[i].wait|
  {
    var r := s.txRecs[i];
    if r.wait == [] || |r.pend| > SEQ_TX_PEND_MAX then (s, true)
    else
      var (u, ret) := WaitStep(s, now, i);
      if ret < 0 then (u, false) else WaitDrained(u, now, i)
  }

  /** The service of record `i`: a record with a request outstanding only
      runs the retry; an unsynchronised record with packets only asks to
      set the sequence; any other record runs the pending check and then,
      unless that says otherwise, the wait drain.  `go` is false when the
      routine ends here. */
  function RecordEffect(me: Addr, s: Snap, now: u32, i: nat): (res: (Snap, bool))
    requires SnapOk(s) && i < |s.txRecs|
    ensures SnapOk(res.0)
    ensures res.0.txOrder == s.txOrder
  {
    var r := s.txRecs[i];
    if r.p0Req.Some? then (RetryEffect(s, now, i), true)
    else if (r.pend != [] || r.wait != []) && Unsync(r.seqNum) then (SetSeqEffect(me, s, now, i), true)
    else
      var (u, flow) := CheckEffect(me, s, now, i);
      match flow
      case Next => (u, true)
      case Abort => (u, false)
      case Drain => WaitDrained(u, now, i)
  }

  /** The record service from position `pos` of the recency list on; it
      stops at the first record that was never addressed (MAC 255), since
      records are used from the front. */
  function ServiceFrom(me: Addr, s: Snap, now: u32, pos: nat): (t: Snap)
    requires SnapOk(s) && pos <= |s.txOrder|
    ensures SnapOk(t)
    decreases |s.txOrder| - pos
  {
    if pos == |s.txOrder| || s.txRecs[s.txOrder[pos]].addr.mac == 255 then s
    else
      var (u, go) := RecordEffect(me, s, now, s.txOrder[pos]);
      if go then ServiceFrom(me, u, now, pos + 1) else u
  }

  /** `cdnet_seq_tx_routine` at tick `now`. */
  function TxRoutineEffect(me: Addr, s: Snap, now: u32): (t: Snap)
    requires SnapOk(s)
    ensures SnapOk(t)
  {
    var (u, ok) := DirectDrained(AdmitAll(s));
    if ok then ServiceFrom(me, u, now, 0) else u
  }

  // ---------------------------------------------------------------------
  // The transmit routine only moves packets

  /** A record that keeps its packets keeps what all records hold. */
  lemma SameRecIds(rs: seq<TxRec>, i: nat, r: TxRec)
    requires i < |rs| && RecIds(r) == RecIds(rs[i])
    ensures AllRecIds(rs[i := r]) == AllRecIds(rs)
  {
    assert RecIds(rs[i]) == RecIds(r) + multiset{};
    TakeFromRec(rs, i, r, multiset{});
    assert AllRecIds(rs[i := r]) + multiset{} == AllRecIds(rs[i := r]);
  }

  /** Packets leaving one holder for another. */
  lemma MoveSome(qs: multiset<PktId>, qt: multiset<PktId>, rs: multiset<PktId>, rt: multiset<PktId>, m: multiset<PktId>)
    requires qs + m == qt && rt + m == rs
    ensures qt + rt == qs + rs
  {
  }

  lemma DirectStepConserves(s: Snap)
    requires SnapOk(s) && s.direct != []
    ensures Held(DirectStep(s).0) == Held(s)
  {
    var (t, ret) := DirectStep(s);
    if ret >= 0 {
      var h := s.direct[0];
      assert s.direct == [h] + t.direct;
      assert multiset(t.free) == multiset(s.free) + multiset{h};
      assert QueueIds(t) == QueueIds(s);
    } else {
      assert QueueIds(t) == QueueIds(s);
    }
  }

  lemma {:induction false} DirectDrainedConserves(s: Snap)
    requires SnapOk(s)
    ensures Held(DirectDrained(s).0) == Held(s)
    decreases |s.direct|
  {
    if s.direct != [] {
      DirectStepConserves(s);
      var (u, ret) := DirectStep(s);
      if ret >= 0 {
        DirectDrainedConserves(u);
      }
    }
  }

  lemma FlushedConserves(s: Snap, i: nat)
    requires SnapOk(s) && i < |s.txRecs| && s.txRecs[i].p0Req.Some?
    ensures Held(Flushed(s, i)) == Held(s)
  {
    var t := Flushed(s, i);
    var r := s.txRecs[i];
    var out := r.pend + r.wait + [r.p0Req.value];
    assert RecIds(r) == RecIds(t.txRecs[i]) + multiset(out);
    TakeFromRec(s.txRecs, i, t.txRecs[i], multiset(out));
    assert QueueIds(s) + multiset(out) == QueueIds(t);
    MoveSome(QueueIds(s), QueueIds(t), AllRecIds(s.txRecs), AllRecIds(t.txRecs), multiset(out));
  }

  lemma RetryConserves(s: Snap, now: u32, i: nat)
    requires SnapOk(s) && i < |s.txRecs| && s.txRecs[i].p0Req.Some?
    ensures Held(RetryEffect(s, now, i)) == Held(s)
  {
    var r := s.txRecs[i];
    if TimedOut(now, s.arena[r.p0Req.value].sendTime, SEQ_TIMEOUT * (r.retryCnt + 1)) {
      if r.retryCnt >= SEQ_TX_RETRY_MAX {
        FlushedConserves(s, i);
      } else {
        var t := Resent(s, now, i);
        SameRecIds(s.txRecs, i, t.txRecs[i]);
        assert t.txRecs == s.txRecs[i := t.txRecs[i]];
        assert QueueIds(t) == QueueIds(s);
      }
    }
  }

  lemma IssueReqConserves(me: Addr, s: Snap, i: nat, dat: seq<byte>, r: TxRec)
    requires SnapOk(s) && i < |s.txRecs| && s.free != []
    requires TxRecOk(r, |s.arena|) && RecIds(r) == RecIds(s.txRecs[i]) && r.p0Req.None?
    ensures Held(IssueReq(me, s, i, dat, r).0) == Held(s)
  {
    var t := IssueReq(me, s, i, dat, r).0;
    ReqRecIds(r, s.free[0]);
    FreeToRec(s, t, i, s.free[0]);
  }

  /** The first free packet joining record `i`. */
  lemma FreeToRec(s: Snap, t: Snap, i: nat, h: PktId)
    requires i < |s.txRecs| && |t.txRecs| == |s.txRecs| && t.txRecs == s.txRecs[i := t.txRecs[i]]
    requires t.rxHead == s.rxHead && t.txHead == s.txHead && t.direct == s.direct
    requires s.free == [h] + t.free
    requires RecIds(t.txRecs[i]) == RecIds(s.txRecs[i]) + multiset{h}
    ensures Held(t) == Held(s)
  {
    GiveToRec(s.txRecs, i, t.txRecs[i], multiset{h});
    assert QueueIds(s) == QueueIds(t) + multiset{h};
    MoveOne(QueueIds(s), QueueIds(t), AllRecIds(s.txRecs), AllRecIds(t.txRecs), h);
  }

  /** A record that takes on a request holds that packet more. */
  lemma ReqRecIds(r: TxRec, h: PktId)
    requires r.p0Req.None?
    ensures RecIds(r.(p0Req := Some(h))) == RecIds(r) + multiset{h}
  {
  }

  lemma SetSeqConserves(me: Addr, s: Snap, now: u32, i: nat)
    requires SnapOk(s) && i < |s.txRecs| && s.txRecs[i].p0Req.None?
    ensures Held(SetSeqEffect(me, s, now, i)) == Held(s)
  {
    if s.free != [] {
      IssueReqConserves(me, s, i, [0, 0], s.txRecs[i].(seqNum := 0));
    }
  }

  lemma CheckConserves(me: Addr, s: Snap, now: u32, i: nat)
    requires SnapOk(s) && i < |s.txRecs| && s.txRecs[i].p0Req.None?
    ensures Held(CheckEffect(me, s, now, i).0) == Held(s)
  {
    var r := s.txRecs[i];
    if r.pend != [] && TimedOut(now, s.arena[r.pend[0]].sendTime, SEQ_TIMEOUT) && s.free != [] {
      IssueReqConserves(me, s, i, [], r.(sendCnt := 0));
    }
  }

  /** A packet leaving record `i` for the free pool. */
  lemma RecToFree(s: Snap, t: Snap, i: nat, id: PktId)
    requires i < |s.txRecs| && |t.txRecs| == |s.txRecs| && t.txRecs == s.txRecs[i := t.txRecs[i]]
    requires t.rxHead == s.rxHead && t.txHead == s.txHead && t.direct == s.direct
    requires t.free == s.free + [id]
    requires RecIds(s.txRecs[i]) == RecIds(t.txRecs[i]) + multiset{id}
    ensures Held(t) == Held(s)
  {
    TakeFromRec(s.txRecs, i, t.txRecs[i], multiset{id});
    assert QueueIds(s) + multiset{id} == QueueIds(t);
    MoveSome(QueueIds(s), QueueIds(t), AllRecIds(s.txRecs), AllRecIds(t.txRecs), multiset{id});
  }

  /** Record `i` changing without gaining or losing a packet. */
  lemma RecKept(s: Snap, t: Snap, i: nat)
    requires i < |s.txRecs| && |t.txRecs| == |s.txRecs| && t.txRecs == s.txRecs[i := t.txRecs[i]]
    requires t.rxHead == s.rxHead && t.txHead == s.txHead && t.direct == s.direct && t.free == s.free
    requires RecIds(s.txRecs[i]) == RecIds(t.txRecs[i])
    ensures Held(t) == Held(s)
  {
    SameRecIds(s.txRecs, i, t.txRecs[i]);
  }

  lemma WaitStepConserves(s: Snap, now: u32, i: nat)
    requires SnapOk(s) && i < |s.txRecs|
    requires s.txRecs[i].wait != [] && |s.txRecs[i].pend| <= SEQ_TX_PEND_MAX
    ensures Held(WaitStep(s, now, i).0) == Held(s)
  {
    var (t, ret) := WaitStep(s, now, i);
    var r := s.txRecs[i];
    var id := r.wait[0];
    assert r.wait == [id] + r.wait[1..];
    if ret >= 0 && !(ret == 0 && s.arena[id].sequenced) {
      RecToFree(s, t, i, id);
    } else {
      RecKept(s, t, i);
    }
  }

  lemma {:induction false} WaitDrainedConserves(s: Snap, now: u32, i: nat)
    requires SnapOk(s) && i < |s.txRecs|
    ensures Held(WaitDrained(s, now, i).0) == Held(s)
    decreases |s.txRecs[i].wait|
  {
    var r := s.txRecs[i];
    if r.wait != [] && |r.pend| <= SEQ_TX_PEND_MAX {
      WaitStepConserves(s, now, i);
      var (u, ret) := WaitStep(s, now, i);
      if ret >= 0 {
        WaitDrainedConserves(u, now, i);
      }
    }
  }

  lemma RecordConserves(me: Addr, s: Snap, now: u32, i: nat)
    requires SnapOk(s) && i < |s.txRecs|
    ensures Held(RecordEffect(me, s, now, i).0) == Held(s)
  {
    var r := s.txRecs[i];
    var t := RecordEffect(me, s, now, i).0;
    if r.p0Req.Some? {
      RetryConserves(s, now, i);
      assert t == RetryEffect(s, now, i);
    } else if (r.pend != [] || r.wait != []) && Unsync(r.seqNum) {
      SetSeqConserves(me, s, now, i);
      assert t == SetSeqEffect(me, s, now, i);
    } else {
      CheckConserves(me, s, now, i);
      var (u, flow) := CheckEffect(me, s, now, i);
      if flow == Drain {
        WaitDrainedConserves(u, now, i);
        assert t == WaitDrained(u, now, i).0;
      } else {
        assert t == u;
      }
    }
  }

  lemma {:induction false} ServiceConserves(me: Addr, s: Snap, now: u32, pos: nat)
    requires SnapOk(s) && pos <= |s.txOrder|
    ensures Held(ServiceFrom(me, s, now, pos)) == Held(s)
    decreases |s.txOrder| - pos
  {
    if pos < |s.txOrder| && s.txRecs[s.txOrder[pos]].addr.mac != 255 {
      RecordConserves(me, s, now, s.txOrder[pos]);
      var (u, go) := RecordEffect(me, s, now, s.txOrder[pos]);
      if go {
        ServiceConserves(me, u, now, pos + 1);
      }
    }
  }

  /** The transmit routine neither loses nor invents a packet: every packet
      it takes from one queue or record ends up in another, on the free
      pool, or as a record's request. */
  lemma TxRoutineConserves(me: Addr, s: Snap, now: u32)
    requires SnapOk(s)
    ensures Held(TxRoutineEffect(me, s, now)) == Held(s)
  {
    AdmitAllConserves(s);
    var a := AdmitAll(s);
    DirectDrainedConserves(a);
    var (u, ok) := DirectDrained(a);
    if ok {
      ServiceConserves(me, u, now, 0);
    }
  }

  /** The transmit routine keeps every packet held at most once. */
  lemma TxRoutineKeepsNoAlias(me: Addr, s: Snap, now: u32)
    requires SnapOk(s) && NoAlias(Held(s))
    ensures NoAlias(Held(TxRoutineEffect(me, s, now)))
  {
    TxRoutineConserves(me, s, now);
  }

  // ---------------------------------------------------------------------
  // What the service does to a record

  /** The retry of an outstanding request: before its timeout nothing
      changes.  Once it is late, a record whose retries are used up gives
      every packet it holds back to the free pool, no longer in use and
      unsynchronised; any other record keeps its queues and its request,
      and counts a retry exactly when the link took the resent request. */
  lemma RetryOutcome(s: Snap, now: u32, i: nat)
    requires SnapOk(s) && i < |s.txRecs| && s.txRecs[i].p0Req.Some?
    ensures var r := s.txRecs[i];
            var req := r.p0Req.value;
            var late := TimedOut(now, s.arena[req].sendTime, SEQ_TIMEOUT * (r.retryCnt + 1));
            var t := RetryEffect(s, now, i);
            (!late ==> t == s) &&
            (late && r.retryCnt >= SEQ_TX_RETRY_MAX ==>
               !InUse(t.txRecs[i]) && t.txRecs[i].seqNum == SEQ_UNSYNC && t.txRecs[i].retryCnt == 0 &&
               t.free == s.free + r.pend + r.wait + [req]) &&
            (late && r.retryCnt < SEQ_TX_RETRY_MAX ==>
               t.txRecs[i].(retryCnt := r.retryCnt) == r && t.free == s.free &&
               (t.txRecs[i].retryCnt == r.retryCnt + 1 <==> SendOutcome(s.link, s.arena[req]) == 0) &&
               (SendOutcome(s.link, s.arena[req]) == 0 ==>
                  t.arena == s.arena[req := s.arena[req].(sendTime := now)]) &&
               (SendOutcome(s.link, s.arena[req]) != 0 ==> t.arena == s.arena))
  {
  }

  /** The backoff of the retry.  After a resend the link took at `now`, the
      request is left alone until more than `SEQ_TIMEOUT` times its new
      retry count plus one has passed since `now`.  A resend the link
      refused changes neither the stamp nor the count, so a request that is
      still late is resent at the next pass. */
  lemma RetryBackoff(s: Snap, now: u32, later: u32, i: nat)
    requires SnapOk(s) && i < |s.txRecs| && s.txRecs[i].p0Req.Some?
    requires var r := s.txRecs[i];
             TimedOut(now, s.arena[r.p0Req.value].sendTime, SEQ_TIMEOUT * (r.retryCnt + 1)) &&
             r.retryCnt < SEQ_TX_RETRY_MAX
    ensures var r, req := s.txRecs[i], s.txRecs[i].p0Req.value;
            var t := RetryEffect(s, now, i);
            SendOutcome(s.link, s.arena[req]) == 0 &&
            Elapsed(later, now) <= SEQ_TIMEOUT * (r.retryCnt + 2) ==>
              RetryEffect(t, later, i) == t
    ensures var r, req := s.txRecs[i], s.txRecs[i].p0Req.value;
            var t := RetryEffect(s, now, i);
            SendOutcome(s.link, s.arena[req]) != 0 &&
            TimedOut(later, s.arena[req].sendTime, SEQ_TIMEOUT * (r.retryCnt + 1)) ==>
              RetryEffect(t, later, i) == Resent(t, later, i)
  {
    var r, req := s.txRecs[i], s.txRecs[i].p0Req.value;
    var t := RetryEffect(s, now, i);
    assert t == Resent(s, now, i);
    assert t.txRecs[i].p0Req == r.p0Req;
  }

  /** The set request of an unsynchronised record: the first free packet
      becomes a port-0 request with payload `[0, 0]` to the record's peer,
      the record expects to number from 0, and the request counts as sent
      just now, or `SEQ_TIMEOUT` ago when the link refused it. */
  lemma SetSeqOutcome(me: Addr, s: Snap, now: u32, i: nat)
    requires SnapOk(s) && i < |s.txRecs| && s.txRecs[i].p0Req.None?
    ensures s.free == [] ==> SetSeqEffect(me, s, now, i) == s
    ensures s.free != [] ==>
              var t, r, id := SetSeqEffect(me, s, now, i), s.txRecs[i], s.free[0];
              id < |t.arena| &&
              t.txRecs[i] == r.(seqNum := 0, p0Req := Some(id)) && t.free == s.free[1..] &&
              IsP0Request(t.arena[id]) && t.arena[id].dat == [0, 0] &&
              AddrMatch(r.addr, t.arena[id], Dst) && t.arena[id].srcMac == me.mac &&
              Elapsed(now, t.arena[id].sendTime) == (if SendOutcome(s.link, t.arena[id]) == 0 then 0 else SEQ_TIMEOUT)
  {
    if s.free != [] {
      var id := s.free[0];
      var (u, ret) := IssueReq(me, s, i, [0, 0], s.txRecs[i].(seqNum := 0));
      assert Elapsed(now, now) == 0;
    }
  }

  /** The pending check: nothing happens until the oldest pending packet is
      late; then, given a free packet, it becomes a query (empty payload) to
      the record's peer and the ack-request counter restarts, and the
      routine ends exactly when the link has no frame for it. */
  lemma CheckOutcome(me: Addr, s: Snap, now: u32, i: nat)
    requires SnapOk(s) && i < |s.txRecs| && s.txRecs[i].p0Req.None?
    ensures var r, res := s.txRecs[i], CheckEffect(me, s, now, i);
            var late := r.pend != [] && TimedOut(now, s.arena[r.pend[0]].sendTime, SEQ_TIMEOUT);
            (!late ==> res == (s, Drain)) &&
            (late && s.free == [] ==> res == (s, Next)) &&
            (late && s.free != [] ==>
               var t, id := res.0, s.free[0];
               id < |t.arena| &&
               t.txRecs[i] == r.(sendCnt := 0, p0Req := Some(id)) && t.free == s.free[1..] &&
               IsP0Request(t.arena[id]) && t.arena[id].dat == [] && AddrMatch(r.addr, t.arena[id], Dst) &&
               (res.1 == Abort <==> SendOutcome(s.link, t.arena[id]) < 0) && res.1 != Next)
  {
  }

  /** One send from the wait queue.  A sequenced packet carries the
      record's number and asks for an ack exactly on the
      `SEQ_TX_ACK_CNT`-th send of the period.  When the link has no frame
      the record keeps its queues; when it takes a sequenced packet the
      packet, stamped now, joins the pending queue and the number advances;
      any other packet is freed and the number stays. */
  lemma WaitStepOutcome(s: Snap, now: u32, i: nat)
    requires SnapOk(s) && i < |s.txRecs|
    requires s.txRecs[i].wait != [] && |s.txRecs[i].pend| <= SEQ_TX_PEND_MAX
    ensures var r, id := s.txRecs[i], s.txRecs[i].wait[0];
            var t, ret := WaitStep(s, now, i).0, WaitStep(s, now, i).1;
            var p := s.arena[id];
            ret == SendOutcome(s.link, p) && |t.arena| == |s.arena| &&
            (forall x :: 0 <= x < |s.arena| && x != id ==> t.arena[x] == s.arena[x]) &&
            (p.sequenced ==> t.arena[id].seqNum == r.seqNum &&
                             (t.arena[id].reqAck <==> r.sendCnt == SEQ_TX_ACK_CNT - 1)) &&
            (ret < 0 ==> t.txRecs[i].wait == r.wait && t.txRecs[i].pend == r.pend && t.free == s.free) &&
            (ret == 0 && p.sequenced ==>
               t.txRecs[i].pend == r.pend + [id] && t.txRecs[i].seqNum == Advance(r.seqNum) &&
               t.arena[id].sendTime == now && t.free == s.free) &&
            (ret >= 0 && !(ret == 0 && p.sequenced) ==>
               t.txRecs[i].pend == r.pend && t.txRecs[i].seqNum == r.seqNum && t.free == s.free + [id])
  {
  }

  /** The window check lets one packet more than `SEQ_TX_PEND_MAX` into
      the pending queue: a full window still takes a sequenced packet the
      link accepts. */
  lemma WindowAdmitsOneMore(s: Snap, now: u32, i: nat)
    requires SnapOk(s) && i < |s.txRecs|
    requires s.txRecs[i].wait != [] && |s.txRecs[i].pend| == SEQ_TX_PEND_MAX
    requires s.arena[s.txRecs[i].wait[0]].sequenced && s.arena[s.txRecs[i].wait[0]].level != L2
    requires s.link != [] && s.link[0] == Encoded
    ensures |WaitDrained(s, now, i).0.txRecs[i].pend| == SEQ_TX_PEND_MAX + 1
  {
    WaitStepOutcome(s, now, i);
  }

  /** Each record's service changes no other record, and no queue but the
      free pool and the wire. */
  lemma RecordLocal(me: Addr, s: Snap, now: u32, i: nat)
    requires SnapOk(s) && i < |s.txRecs|
    ensures OnlyRec(s, RecordEffect(me, s, now, i).0, i)
  {
    var r := s.txRecs[i];
    if r.p0Req.None? && !((r.pend != [] || r.wait != []) && Unsync(r.seqNum)) {
      var (u, flow) := CheckEffect(me, s, now, i);
      if flow == Drain {
        var t := WaitDrained(u, now, i).0;
        assert OnlyRec(s, t, i);
      }
    }
  }

  /** The ack-request flags of a run of sequenced packets stamped by one
      record, as if the link took each of them. */
  function AckFlags(r: TxRec, n: nat): (f: seq<bool>)
    requires r.sendCnt < SEQ_TX_ACK_CNT
    ensures |f| == n
    decreases n
  {
    if n == 0 then []
    else
      var c := (r.sendCnt + 1) % SEQ_TX_ACK_CNT;
      [c == 0] + AckFlags(r.(sendCnt := c), n - 1)
  }

  /** Acks are asked for on every `SEQ_TX_ACK_CNT`-th sequenced send,
      counting from the record's counter. */
  lemma {:induction false} AckPeriod(r: TxRec, n: nat, k: nat)
    requires r.sendCnt < SEQ_TX_ACK_CNT && k < n
    ensures AckFlags(r, n)[k] <==> (r.sendCnt + k + 1) % SEQ_TX_ACK_CNT == 0
    decreases k
  {
    if k > 0 {
      var c := (r.sendCnt + 1) % SEQ_TX_ACK_CNT;
      AckPeriod(r.(sendCnt := c), n - 1, k - 1);
      assert (c + (k - 1) + 1) % SEQ_TX_ACK_CNT == (r.sendCnt + k + 1) % SEQ_TX_ACK_CNT;
    }
  }

  /** `AckFlags` follows the stamping: each flag is the one `Stamped` sets. */
  lemma AckFlagsStamp(r: TxRec, p: Packet, n: nat)
    requires r.sendCnt < SEQ_TX_ACK_CNT && p.sequenced && n > 0
    ensures AckFlags(r, n)[0] == Stamped(p, r).0.reqAck
    ensures AckFlags(r, n)[1..] == AckFlags(Stamped(p, r).1, n - 1)
  {
  }

  // ---------------------------------------------------------------------
  // The pending queue is numbered consecutively

  /** The pending packets of a synchronised record carry, oldest first,
      the numbers just before the record's next one. */
  predicate Chained(r: TxRec, arena: seq<Packet>)
    requires |r.pend| <= 128
  {
    !Unsync(r.seqNum) ==> Consecutive(r.pend, arena, r.seqNum + 128 - |r.pend|)
  }

  /** A packet waiting in a record is not also pending there, as long as
      the interface holds no packet twice. */
  lemma HeadNotPending(s: Snap, i: nat)
    requires i < |s.txRecs| && NoAlias(Held(s)) && s.txRecs[i].wait != []
    ensures s.txRecs[i].wait[0] !in s.txRecs[i].pend
  {
    var r := s.txRecs[i];
    var id := r.wait[0];
    RecIdsIn(s.txRecs, i);
    assert Held(s)[id] == QueueIds(s)[id] + AllRecIds(s.txRecs)[id];
    assert RecIds(r)[id] <= AllRecIds(s.txRecs)[id];
    assert id in multiset(r.wait);
    assert multiset(r.pend)[id] == 0;
  }

  /** Appending the packet stamped with the record's number, and advancing
      the number, keeps the numbering. */
  lemma AppendChains(r: TxRec, r': TxRec, arena: seq<Packet>, arena': seq<Packet>, id: PktId)
    requires |r.pend| < 128 && !Unsync(r.seqNum) && Chained(r, arena)
    requires r'.pend == r.pend + [id] && r'.seqNum == Advance(r.seqNum)
    requires |arena'| == |arena| && id < |arena| && arena'[id].seqNum == r.seqNum
    requires forall j :: 0 <= j < |r.pend| ==> arena'[r.pend[j]] == arena[r.pend[j]]
    ensures !Unsync(r'.seqNum) && Chained(r', arena')
  {
    var st := r.seqNum + 128 - |r.pend|;
    var st' := r'.seqNum + 128 - |r'.pend|;
    forall j | 0 <= j < |r'.pend|
      ensures arena'[r'.pend[j]].seqNum == (st' + j) % 128
    {
      StartShift(r.seqNum, |r.pend|, j);
      if j < |r.pend| {
        assert r'.pend[j] == r.pend[j];
      }
    }
  }

  /** The start of the numbering moves by a whole turn at most when the
      number advances and the queue grows by one; the new packet's place
      carries the old number. */
  lemma StartShift(n: byte, len: nat, j: nat)
    requires n < 128 && len < 128
    ensures var st, st' := n + 128 - len, Advance(n) + 128 - (len + 1);
            (st' + j) % 128 == (st + j) % 128 && (st' + len) % 128 == n
  {
    var st, st' := n + 128 - len, Advance(n) + 128 - (len + 1);
    if n == 127 {
      assert st + j == (st' + j) + 128;
    }
  }

  /** One send from the wait queue keeps the numbering: a sequenced packet
      the link takes is stamped with the next number and appended. */
  lemma WaitStepChains(s: Snap, now: u32, i: nat)
    requires SnapOk(s) && i < |s.txRecs|
    requires s.txRecs[i].wait != [] && |s.txRecs[i].pend| <= SEQ_TX_PEND_MAX
    requires s.txRecs[i].wait[0] !in s.txRecs[i].pend
    requires !Unsync(s.txRecs[i].seqNum) && Chained(s.txRecs[i], s.arena)
    ensures var t := WaitStep(s, now, i).0;
            !Unsync(t.txRecs[i].seqNum) && Chained(t.txRecs[i], t.arena)
  {
    WaitStepOutcome(s, now, i);
    var r, id := s.txRecs[i], s.txRecs[i].wait[0];
    var (t, ret) := WaitStep(s, now, i);
    forall j | 0 <= j < |r.pend|
      ensures t.arena[r.pend[j]] == s.arena[r.pend[j]]
    {
    }
    if ret == 0 && s.arena[id].sequenced {
      AppendChains(r, t.txRecs[i], s.arena, t.arena, id);
    }
  }

  /** The wait drain keeps the numbering of a synchronised record. */
  lemma {:induction false} WaitDrainedChains(s: Snap, now: u32, i: nat)
    requires SnapOk(s) && i < |s.txRecs| && NoAlias(Held(s))
    requires !Unsync(s.txRecs[i].seqNum) && Chained(s.txRecs[i], s.arena)
    ensures var t := WaitDrained(s, now, i).0;
            !Unsync(t.txRecs[i].seqNum) && Chained(t.txRecs[i], t.arena)
    decreases |s.txRecs[i].wait|
  {
    var r := s.txRecs[i];
    if r.wait != [] && |r.pend| <= SEQ_TX_PEND_MAX {
      HeadNotPending(s, i);
      WaitStepChains(s, now, i);
      WaitStepConserves(s, now, i);
      var (u, ret) := WaitStep(s, now, i);
      if ret >= 0 {
        WaitDrainedChains(u, now, i);
      }
    }
  }

  // ---------------------------------------------------------------------
  // The admission methods

  /** One turn of the admission loop of `cdnet_seq_tx_routine`. */
  method AdmitOne(intf: Intf) returns (go: bool)
    requires intf.Valid() && intf.txHead != []
    modifies intf`arena, intf`txHead, intf`directHead, intf`txOrder, intf.txRecs
    ensures (intf.View(), go) == AdmitStep(old(intf.View()))
    ensures intf.Valid()
  {
    ghost var s := intf.View();
    var id := intf.txHead[0];
    var p := Prepared(intf.arena[id]);
    var k := FindTxRec(intf, p, Dst);
    assert TxFind(TakeHead(s), p) == k;
    intf.arena := intf.arena[id := p];
    intf.txHead := intf.txHead[1..];
    if k >= 0 && (p.sequenced || InUse(intf.txRecs[intf.txOrder[k]])) {
      var ri := intf.txOrder[k];
      var r := intf.txRecs[ri];
      intf.txRecs[ri] := r.(wait := r.wait + [id]);
      intf.txOrder := MoveToFront(intf.txOrder, k);
      assert intf.txRecs[..] == s.txRecs[ri := r.(wait := r.wait + [id])];
      return true;
    }
    if !p.sequenced {
      intf.directHead := intf.directHead + [id];
      return true;
    }
    var last := |intf.txOrder| - 1;
    var ri := intf.txOrder[last];
    if InUse(intf.txRecs[ri]) {
      // No record is free: the packet goes back to the head of the queue.
      intf.txHead := [id] + intf.txHead;
      assert intf.txHead == s.txHead;
      return false;
    }
    var r := TX_REC_ZERO.(addr := DstPeer(p), seqNum := SEQ_UNSYNC, wait := [id]);
    intf.txRecs[ri] := r;
    intf.txOrder := MoveToFront(intf.txOrder, last);
    assert intf.txRecs[..] == s.txRecs[ri := r];
    return true;
  }

  /** The admission loop of `cdnet_seq_tx_routine`. */
  method Admit(intf: Intf)
    requires intf.Valid()
    modifies intf`arena, intf`txHead, intf`directHead, intf`txOrder, intf.txRecs
    ensures intf.View() == AdmitAll(old(intf.View()))
    ensures intf.Valid()
  {
    while intf.txHead != []
      invariant intf.Valid()
      invariant AdmitAll(intf.View()) == AdmitAll(old(intf.View()))
      decreases |intf.txHead|
    {
      ghost var before := intf.View();
      var go := AdmitOne(intf);
      if !go {
        assert AdmitAll(before) == intf.View();
        return;
      }
    }
  }

  // ---------------------------------------------------------------------
  // The direct drain and the record service

  /** The direct-queue drain of `cdnet_seq_tx_routine`. */
  method DrainDirect(intf: Intf) returns (ok: bool)
    requires intf.Valid()
    modifies intf`free, intf`directHead, intf`link, intf`wire
    ensures (intf.View(), ok) == DirectDrained(old(intf.View()))
    ensures intf.Valid()
  {
    while intf.directHead != []
      invariant intf.Valid()
      invariant DirectDrained(intf.View()) == DirectDrained(old(intf.View()))
      decreases |intf.directHead|
    {
      ghost var before := intf.View();
      var id := intf.directHead[0];
      var ret := SendPkt(intf, id);
      if ret < 0 {
        assert DirectStep(before) == (intf.View(), ret);
        return false;
      }
      intf.directHead := intf.directHead[1..];
      intf.free := intf.free + [id];
      assert DirectStep(before) == (intf.View(), ret);
    }
    return true;
  }

  /** Hands every packet of `q`, in order, to the free pool. */
  method FreeAll(intf: Intf, q: seq<PktId>)
    modifies intf`free
    ensures intf.free == old(intf.free) + q
  {
    var rest := q;
    while rest != []
      invariant intf.free + rest == old(intf.free) + q
      decreases |rest|
    {
      intf.free := intf.free + [rest[0]];
      assert intf.free + rest[1..] == old(intf.free) + q;
      rest := rest[1..];
    }
  }

  /** The retry of a record whose request is outstanding. */
  method RetryP0(intf: Intf, now: u32, i: nat)
    requires intf.Valid() && i < intf.txRecs.Length && intf.txRecs[i].p0Req.Some?
    modifies intf`free, intf`arena, intf`link, intf`wire, intf.txRecs
    ensures intf.View() == RetryEffect(old(intf.View()), now, i)
    ensures intf.Valid()
  {
    ghost var s := intf.View();
    var r := intf.txRecs[i];
    var req := r.p0Req.value;
    if !TimedOut(now, intf.arena[req].sendTime, SEQ_TIMEOUT * (r.retryCnt + 1)) {
      return;
    }
    if r.retryCnt >= SEQ_TX_RETRY_MAX {
      FreeAll(intf, r.pend);
      FreeAll(intf, r.wait);
      intf.free := intf.free + [req];
      intf.txRecs[i] := r.(pend := [], wait := [], p0Req := None, retryCnt := 0, seqNum := SEQ_UNSYNC);
      assert intf.View() == Flushed(s, i);
      return;
    }
    var ret := SendPkt(intf, req);
    if ret == 0 {
      intf.arena := intf.arena[req := intf.arena[req].(sendTime := now)];
      intf.txRecs[i] := r.(retryCnt := r.retryCnt + 1);
    }
    assert intf.View() == Resent(s, now, i);
  }

  /** The set-seq request of an unsynchronised record with packets. */
  method SendSetSeq(intf: Intf, now: u32, i: nat)
    requires intf.Valid() && i < intf.txRecs.Length && intf.txRecs[i].p0Req.None?
    modifies intf`free, intf`arena, intf`link, intf`wire, intf.txRecs
    ensures intf.View() == SetSeqEffect(intf.me, old(intf.View()), now, i)
    ensures intf.Valid()
  {
    ghost var s := intf.View();
    if intf.free == [] {
      return;
    }
    var id := intf.free[0];
    var r := intf.txRecs[i];
    intf.free := intf.free[1..];
    intf.txRecs[i] := r.(p0Req := Some(id), seqNum := 0);
    intf.arena := intf.arena[id := ControlReq(intf.me, intf.arena[id], r.addr, [0, 0])];
    assert intf.txRecs[..] == s.txRecs[i := r.(seqNum := 0).(p0Req := Some(id))];
    var ret := SendPkt(intf, id);
    assert (intf.View(), ret) == IssueReq(intf.me, s, i, [0, 0], r.(seqNum := 0));
    intf.arena := intf.arena[id := intf.arena[id].(sendTime := if ret == 0 then now else Rewind(now, SEQ_TIMEOUT))];
  }

  /** The pending check of a record without a request outstanding. */
  method CheckPending(intf: Intf, now: u32, i: nat) returns (flow: Flow)
    requires intf.Valid() && i < intf.txRecs.Length && intf.txRecs[i].p0Req.None?
    modifies intf`free, intf`arena, intf`link, intf`wire, intf.txRecs
    ensures (intf.View(), flow) == CheckEffect(intf.me, old(intf.View()), now, i)
    ensures intf.Valid()
  {
    ghost var s := intf.View();
    var r := intf.txRecs[i];
    if r.pend == [] || !TimedOut(now, intf.arena[r.pend[0]].sendTime, SEQ_TIMEOUT) {
      return Drain;
    }
    if intf.free == [] {
      return Next;
    }
    var id := intf.free[0];
    intf.free := intf.free[1..];
    intf.txRecs[i] := r.(p0Req := Some(id), sendCnt := 0);
    intf.arena := intf.arena[id := ControlReq(intf.me, intf.arena[id], r.addr, [])];
    assert intf.txRecs[..] == s.txRecs[i := r.(sendCnt := 0).(p0Req := Some(id))];
    var ret := SendPkt(intf, id);
    assert (intf.View(), ret) == IssueReq(intf.me, s, i, [], r.(sendCnt := 0));
    if ret >= 0 {
      intf.arena := intf.arena[id := intf.arena[id].(sendTime := now)];
      return Drain;
    }
    intf.arena := intf.arena[id := intf.arena[id].(sendTime := Rewind(now, SEQ_TIMEOUT))];
    return Abort;
  }

  /** One send from a record's wait queue. */
  method WaitOne(intf: Intf, now: u32, i: nat) returns (ret: int)
    requires intf.Valid() && i < intf.txRecs.Length
    requires intf.txRecs[i].wait != [] && |intf.txRecs[i].pend| <= SEQ_TX_PEND_MAX
    modifies intf`free, intf`arena, intf`link, intf`wire, intf.txRecs
    ensures (intf.View(), ret) == WaitStep(old(intf.View()), now, i)
    ensures intf.Valid()
  {
    ghost var s := intf.View();
    var r := intf.txRecs[i];
    var id := r.wait[0];
    var p := intf.arena[id];
    if p.sequenced {
      p := p.(seqNum := r.seqNum);
      if r.sendCnt + 1 == SEQ_TX_ACK_CNT {
        r, p := r.(sendCnt := 0), p.(reqAck := true);
      } else {
        r, p := r.(sendCnt := r.sendCnt + 1), p.(reqAck := false);
      }
      intf.arena := intf.arena[id := p];
      intf.txRecs[i] := r;
    }
    assert (p, r) == Stamped(s.arena[id], s.txRecs[i]);
    assert intf.View() == s.(arena := s.arena[id := p], txRecs := s.txRecs[i := r]);
    ret := SendPkt(intf, id);
    if ret < 0 {
      return;
    }
    if ret == 0 && p.sequenced {
      intf.arena := intf.arena[id := p.(sendTime := now)];
      intf.txRecs[i] := r.(wait := r.wait[1..], pend := r.pend + [id], seqNum := Advance(r.seqNum));
    } else {
      intf.txRecs[i] := r.(wait := r.wait[1..]);
      intf.free := intf.free + [id];
    }
  }

  /** The wait-queue drain of one record. */
  method DrainWait(intf: Intf, now: u32, i: nat) returns (ok: bool)
    requires intf.Valid() && i < intf.txRecs.Length
    modifies intf`free, intf`arena, intf`link, intf`wire, intf.txRecs
    ensures (intf.View(), ok) == WaitDrained(old(intf.View()), now, i)
    ensures intf.Valid()
  {
    while intf.txRecs[i].wait != []
      invariant intf.Valid()
      invariant WaitDrained(intf.View(), now, i) == WaitDrained(old(intf.View()), now, i)
      decreases |intf.txRecs[i].wait|
    {
      if |intf.txRecs[i].pend| > SEQ_TX_PEND_MAX {
        return true;
      }
      var ret := WaitOne(intf, now, i);
      if ret < 0 {
        return false;
      }
    }
    return true;
  }

  /** The service of one record. */
  method ServiceRecord(intf: Intf, now: u32, i: nat) returns (go: bool)
    requires intf.Valid() && i < intf.txRecs.Length
    modifies intf`free, intf`arena, intf`link, intf`wire, intf.txRecs
    ensures (intf.View(), go) == RecordEffect(intf.me, old(intf.View()), now, i)
    ensures intf.Valid()
  {
    var r := intf.txRecs[i];
    if r.p0Req.Some? {
      RetryP0(intf, now, i);
      return true;
    }
    if (r.pend != [] || r.wait != []) && Unsync(r.seqNum) {
      SendSetSeq(intf, now, i);
      return true;
    }
    var flow := CheckPending(intf, now, i);
    if flow == Next {
      return true;
    }
    if flow == Abort {
      return false;
    }
    go := DrainWait(intf, now, i);
  }

  /** The record walk of `cdnet_seq_tx_routine`, from the most recently
      used record. */
  method ServiceRecords(intf: Intf, now: u32)
    requires intf.Valid()
    modifies intf`free, intf`arena, intf`link, intf`wire, intf.txRecs
    ensures intf.View() == ServiceFrom(intf.me, old(intf.View()), now, 0)
    ensures intf.Valid()
  {
    var pos := 0;
    while pos < |intf.txOrder| && intf.txRecs[intf.txOrder[pos]].addr.mac != 255
      invariant intf.Valid() && pos <= |intf.txOrder|
      invariant ServiceFrom(intf.me, intf.View(), now, pos) == ServiceFrom(intf.me, old(intf.View()), now, 0)
      decreases SEQ_TX_REC_MAX - pos
    {
      var go := ServiceRecord(intf, now, intf.txOrder[pos]);
      if !go {
        return;
      }
      pos := pos + 1;
    }
  }

  /** `cdnet_seq_tx_routine`: admission, the direct drain, and, unless the
      link ran out of frames, the record service, all at tick `now`. */
  method SeqTxRoutine(intf: Intf, now: u32)
    requires intf.Valid()
    modifies intf`arena, intf`free, intf`txHead, intf`directHead, intf`txOrder, intf`link, intf`wire, intf.txRecs
    ensures intf.View() == TxRoutineEffect(intf.me, old(intf.View()), now)
    ensures intf.Valid()
  {
    Admit(intf);
    var ok := DrainDirect(intf);
    if ok {
      ServiceRecords(intf, now);
    }
  }
}
