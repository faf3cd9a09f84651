/** The per-peer records of net/cdnet_seq.c and the pure specifications the
    handlers are proved against: address matching, first-match lookup along a
    recency list, move-to-front, the packets a transmit record holds, and the
    cumulative-ack cut of a pending queue. */
module SeqRecords {
  import opened CdnetTypes

  /** A receive record: the peer and the sequence number expected next. */
  datatype RxRec = RxRec(addr: Addr, seqNum: byte)

  /** A transmit record: the peer, the next sequence number to stamp, the
      sends since the last ack request, the retries of the outstanding
      port-0 request, that request, the packets waiting to be sent and the
      packets sent but not yet acknowledged. */
  datatype TxRec = TxRec(
    addr: Addr,
    seqNum: byte,
    sendCnt: nat,
    retryCnt: nat,
    p0Req: Option<PktId>,
    wait: seq<PktId>,
    pend: seq<PktId>)

  const RX_REC_INIT: RxRec := RxRec(NO_ADDR, SEQ_UNSYNC)

  /** A record with every field zeroed (`memset`). */
  const TX_REC_ZERO: TxRec := TxRec(Addr(0, 0), 0, 0, 0, None, [], [])

  const TX_REC_INIT: TxRec := TX_REC_ZERO.(addr := NO_ADDR, seqNum := SEQ_UNSYNC)

  /** Which end of a packet a record is keyed by. */
  datatype Side = Src | Dst

  /** `is_rx_rec_match`, `is_tx_rec_match_input` (side `Src`) and
      `is_tx_rec_match` (side `Dst`): with network addressing the full
      address must agree, otherwise the MAC must agree and the record must
      be a same-network one. */
  predicate AddrMatch(a: Addr, p: Packet, side: Side) {
    if p.multi >= MULTI_NET then
      (if side == Src then p.srcAddr else p.dstAddr) == a
    else
      (if side == Src then p.srcMac else p.dstMac) == a.mac && a.net == 255
  }

  /** `is_tx_rec_inuse`: the record holds a request or queued packets. */
  predicate InUse(r: TxRec) {
    r.wait != [] || r.pend != [] || r.p0Req.Some?
  }

  /** The record address a sender is given when a receive record is
      (re)assigned to it: its full address when the packet carries network
      addressing, else its MAC on the local network.  The record then
      matches the sender's packets. */
  function PeerAddr(p: Packet): (r: Addr)
    ensures !IsCast(p.multi) ==> AddrMatch(r, p, Src)
  {
    if p.multi == MULTI_NET then p.srcAddr else Addr(255, p.srcMac)
  }

  function RxAddrs(rs: seq<RxRec>): (a: seq<Addr>)
    ensures |a| == |rs| && forall i :: 0 <= i < |rs| ==> a[i] == rs[i].addr
  {
    seq(|rs|, i requires 0 <= i < |rs| => rs[i].addr)
  }

  function TxAddrs(rs: seq<TxRec>): (a: seq<Addr>)
    ensures |a| == |rs| && forall i :: 0 <= i < |rs| ==> a[i] == rs[i].addr
  {
    seq(|rs|, i requires 0 <= i < |rs| => rs[i].addr)
  }

  predicate IndicesIn(order: seq<nat>, n: nat) {
    forall j :: 0 <= j < |order| ==> order[j] < n
  }

  /** The position along the recency list `order` of the first record whose
      address matches `p`, or -1 when none does. */
  function Lookup(addrs: seq<Addr>, order: seq<nat>, p: Packet, side: Side): (k: int)
    requires IndicesIn(order, |addrs|)
    ensures -1 <= k < |order|
    ensures k >= 0 ==> AddrMatch(addrs[order[k]], p, side)
    ensures forall j :: 0 <= j < |order| && (k < 0 || j < k) ==> !AddrMatch(addrs[order[j]], p, side)
    decreases |order|
  {
    if order == [] then -1
    else if AddrMatch(addrs[order[0]], p, side) then 0
    else
      var k := Lookup(addrs, order[1..], p, side);
      if k < 0 then -1 else k + 1
  }

  /** A recency list over `n` records: every record index exactly once. */
  predicate IsPerm(order: seq<nat>, n: nat) {
    |order| == n &&
    (forall j :: 0 <= j < n ==> order[j] < n) &&
    (forall i, j :: 0 <= i < j < n ==> order[i] != order[j])
  }

  /** The initial recency list `[0, 1, ..., n-1]`. */
  function Iota(n: nat): (o: seq<nat>)
    ensures |o| == n && forall j :: 0 <= j < n ==> o[j] == j
  {
    if n == 0 then [] else Iota(n - 1) + [n - 1]
  }

  /** `list_move_begin`: the entry at position `k` becomes the first, the
      entries before it shift back by one, the rest stay put. */
  function MoveToFront(order: seq<nat>, k: nat): (o: seq<nat>)
    requires k < |order|
    ensures |o| == |order| && o[0] == order[k]
    ensures forall j :: 0 < j <= k ==> o[j] == order[j - 1]
    ensures forall j :: k < j < |order| ==> o[j] == order[j]
  {
    [order[k]] + order[..k] + order[k + 1..]
  }

  lemma MoveToFrontIsPerm(order: seq<nat>, k: nat, n: nat)
    requires IsPerm(order, n) && k < n
    ensures IsPerm(MoveToFront(order, k), n)
  {
    var o := MoveToFront(order, k);
    forall i, j | 0 <= i < j < n ensures o[i] != o[j] {
      var i' := if i == 0 then k else if i <= k then i - 1 else i;
      var j' := if j == 0 then k else if j <= k then j - 1 else j;
      assert o[i] == order[i'] && o[j] == order[j'];
      assert i' != j';
    }
  }

  /** The packets a transmit record holds. */
  ghost function RecIds(r: TxRec): multiset<PktId> {
    multiset(r.wait) + multiset(r.pend) +
    (if r.p0Req.Some? then multiset{r.p0Req.value} else multiset{})
  }

  /** The union of the first `n` multisets of `ms`. */
  ghost function Sum(ms: seq<multiset<PktId>>, n: nat): multiset<PktId>
    requires n <= |ms|
  {
    if n == 0 then multiset{} else Sum(ms, n - 1) + ms[n - 1]
  }

  /** Replacing one multiset changes the union by exactly what that
      multiset gave up and took on. */
  lemma {:induction false} SumUpdate(ms: seq<multiset<PktId>>, i: nat, m: multiset<PktId>, n: nat)
    requires i < |ms| && n <= |ms|
    ensures i < n ==> Sum(ms[i := m], n) + ms[i] == Sum(ms, n) + m
    ensures i >= n ==> Sum(ms[i := m], n) == Sum(ms, n)
  {
    if n > 0 {
      SumUpdate(ms, i, m, n - 1);
      var ms' := ms[i := m];
      if i < n {
        forall o ensures (Sum(ms', n) + ms[i])[o] == (Sum(ms, n) + m)[o] {
          if i < n - 1 {
            assert (Sum(ms', n - 1) + ms[i])[o] == (Sum(ms, n - 1) + m)[o];
          }
        }
      }
    }
  }

  lemma {:induction false} SumIncludes(ms: seq<multiset<PktId>>, i: nat, n: nat)
    requires i < n <= |ms|
    ensures ms[i] <= Sum(ms, n)
  {
    if i < n - 1 {
      SumIncludes(ms, i, n - 1);
    }
  }

  /** The packets each transmit record holds. */
  ghost function RecIdsSeq(rs: seq<TxRec>): (ms: seq<multiset<PktId>>)
    ensures |ms| == |rs| && forall i :: 0 <= i < |rs| ==> ms[i] == RecIds(rs[i])
  {
    seq(|rs|, i requires 0 <= i < |rs| => RecIds(rs[i]))
  }

  /** The packets all transmit records hold. */
  ghost function AllRecIds(rs: seq<TxRec>): multiset<PktId> {
    Sum(RecIdsSeq(rs), |rs|)
  }

  /** Replacing one transmit record changes the packets the records hold by
      exactly what that record gave up and took on. */
  lemma AllRecIdsUpdate(rs: seq<TxRec>, i: nat, r: TxRec)
    requires i < |rs|
    ensures AllRecIds(rs[i := r]) + RecIds(rs[i]) == AllRecIds(rs) + RecIds(r)
  {
    assert RecIdsSeq(rs[i := r]) == RecIdsSeq(rs)[i := RecIds(r)];
    SumUpdate(RecIdsSeq(rs), i, RecIds(r), |rs|);
  }

  lemma RecIdsIn(rs: seq<TxRec>, i: nat)
    requires i < |rs|
    ensures RecIds(rs[i]) <= AllRecIds(rs)
  {
    SumIncludes(RecIdsSeq(rs), i, |rs|);
  }

  predicate InArena(q: seq<PktId>, n: nat) {
    forall j :: 0 <= j < |q| ==> q[j] < n
  }

  /** How many pending packets a cumulative ack for `k` frees: the entries
      before the first one stamped `k`, or all of them when none is. */
  function AckCut(pend: seq<PktId>, arena: seq<Packet>, k: byte): (i: nat)
    requires InArena(pend, |arena|)
    ensures i <= |pend|
    ensures forall j :: 0 <= j < i ==> arena[pend[j]].seqNum != k
    ensures i < |pend| ==> arena[pend[i]].seqNum == k
    decreases |pend|
  {
    if pend == [] then 0
    else if arena[pend[0]].seqNum == k then 0
    else 1 + AckCut(pend[1..], arena, k)
  }

  /** The pending packets carry consecutive sequence numbers from `s`. */
  predicate Consecutive(pend: seq<PktId>, arena: seq<Packet>, s: nat) {
    InArena(pend, |arena|) &&
    forall j :: 0 <= j < |pend| ==> arena[pend[j]].seqNum == (s + j) % 128
  }

  /** The cumulative-ack property: on a pending queue stamped with
      consecutive sequence numbers from `s` (fewer than 128 of them), an ack
      naming `s + m` frees exactly the first `m` packets; `m == |pend|` (the
      peer expects the number after the last one sent) frees them all. */
  lemma CumulativeAck(pend: seq<PktId>, arena: seq<Packet>, s: nat, m: nat)
    requires Consecutive(pend, arena, s) && |pend| < 128 && m <= |pend|
    ensures AckCut(pend, arena, (s + m) % 128) == m
  {
    var k := (s + m) % 128;
    forall j | 0 <= j < m
      ensures arena[pend[j]].seqNum != k
    {
      ModDistinct(s, j, m);
    }
    AckCutExact(pend, arena, k, m);
  }

  /** The cut is `m` when the first `m` entries are not stamped `k` and
      the next one, if any, is. */
  lemma {:induction false} AckCutExact(pend: seq<PktId>, arena: seq<Packet>, k: byte, m: nat)
    requires InArena(pend, |arena|) && m <= |pend|
    requires forall j :: 0 <= j < m ==> arena[pend[j]].seqNum != k
    requires m < |pend| ==> arena[pend[m]].seqNum == k
    ensures AckCut(pend, arena, k) == m
    decreases m
  {
    if m > 0 {
      AckCutExact(pend[1..], arena, k, m - 1);
    }
  }

  lemma ModDistinct(s: nat, i: nat, m: nat)
    requires i < m < i + 128
    ensures (s + i) % 128 != (s + m) % 128
  {
    var q1, q2 := (s + i) / 128, (s + m) / 128;
    assert s + i == q1 * 128 + (s + i) % 128;
    assert s + m == q2 * 128 + (s + m) % 128;
  }
}
