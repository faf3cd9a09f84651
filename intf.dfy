/** The network interface context `cdnet_intf_t`: the packet arena and the
    packet queues, the two record pools with their recency lists, and the
    link as seen by the sender.  `cdnet_intf_init` together with
    `cdnet_seq_init` is the constructor. */
module CdnetIntf {
  import opened CdnetTypes
  import opened SeqRecords

  /** What the link does with the next packet handed to it: no free frame
      is available, the packet's codec fills a frame that is queued for
      transmission, or the codec fails. */
  datatype TxOutcome = NoFreeFrame | Encoded | EncodeError

  /** The transmit record invariant: its packets are in the arena, the
      ack-request counter stays below its period, the retry counter never
      passes its limit, and the pending window holds at most one packet
      more than `SEQ_TX_PEND_MAX` (the window check lets one more in). */
  predicate TxRecOk(r: TxRec, n: nat) {
    InArena(r.wait, n) && InArena(r.pend, n) &&
    (r.p0Req.Some? ==> r.p0Req.value < n) &&
    r.sendCnt < SEQ_TX_ACK_CNT &&
    r.retryCnt <= SEQ_TX_RETRY_MAX &&
    |r.pend| <= SEQ_TX_PEND_MAX + 1
  }

  /** The interface state as a value: the packet arena, the five packet
      queues, both record pools with their recency lists (front = most
      recently used), the link's upcoming send outcomes and every packet
      handed to the link so far. */
  datatype Snap = Snap(
    arena: seq<Packet>,
    free: seq<PktId>,
    rxHead: seq<PktId>,
    txHead: seq<PktId>,
    direct: seq<PktId>,
    rxRecs: seq<RxRec>,
    rxOrder: seq<nat>,
    txRecs: seq<TxRec>,
    txOrder: seq<nat>,
    link: seq<TxOutcome>,
    wire: seq<Packet>)

  /** The interface invariant: full record pools whose recency lists list
      every record exactly once, and queues and records that only name
      packets of the arena. */
  predicate SnapOk(s: Snap) {
    |s.rxRecs| == SEQ_RX_REC_MAX && |s.txRecs| == SEQ_TX_REC_MAX &&
    IsPerm(s.rxOrder, SEQ_RX_REC_MAX) && IsPerm(s.txOrder, SEQ_TX_REC_MAX) &&
    InArena(s.free, |s.arena|) && InArena(s.rxHead, |s.arena|) &&
    InArena(s.txHead, |s.arena|) && InArena(s.direct, |s.arena|) &&
    forall i :: 0 <= i < |s.txRecs| ==> TxRecOk(s.txRecs[i], |s.arena|)
  }

  /** The packets the five queues hold. */
  ghost function QueueIds(s: Snap): multiset<PktId> {
    multiset(s.free) + multiset(s.rxHead) + multiset(s.txHead) + multiset(s.direct)
  }

  /** Every packet the interface holds, in its queues or its records. */
  ghost function Held(s: Snap): multiset<PktId> {
    QueueIds(s) + AllRecIds(s.txRecs)
  }

  /** No packet is held twice. */
  ghost predicate NoAlias(m: multiset<PktId>) {
    forall o :: m[o] <= 1
  }

  /** The state `cdnet_intf_init` and `cdnet_seq_init` leave behind: every
      record has the sentinel address (255, 255) and the unsynchronised
      sequence number 0x80, the recency lists hold the records in
      allocation order, and every packet is free. */
  function InitSnap(arena: seq<Packet>, free: seq<PktId>, link: seq<TxOutcome>): (s: Snap)
    ensures forall i :: 0 <= i < |s.rxRecs| ==> s.rxRecs[i] == RX_REC_INIT
    ensures forall i :: 0 <= i < |s.txRecs| ==> s.txRecs[i] == TX_REC_INIT
  {
    Snap(arena, free, [], [], [],
         seq(SEQ_RX_REC_MAX, _ => RX_REC_INIT), Iota(SEQ_RX_REC_MAX),
         seq(SEQ_TX_REC_MAX, _ => TX_REC_INIT), Iota(SEQ_TX_REC_MAX),
         link, [])
  }

  /** The initial state satisfies the invariant and holds exactly the free
      pool. */
  lemma InitHoldsFree(arena: seq<Packet>, free: seq<PktId>, link: seq<TxOutcome>)
    requires InArena(free, |arena|)
    ensures SnapOk(InitSnap(arena, free, link))
    ensures Held(InitSnap(arena, free, link)) == multiset(free)
  {
    NoRecIds(InitSnap(arena, free, link).txRecs);
  }

  /** A free pool that names no packet twice gives an initial state that
      holds every packet at most once. */
  lemma InitNoAlias(arena: seq<Packet>, free: seq<PktId>, link: seq<TxOutcome>)
    requires InArena(free, |arena|)
    requires forall i, j :: 0 <= i < j < |free| ==> free[i] != free[j]
    ensures NoAlias(Held(InitSnap(arena, free, link)))
  {
    InitHoldsFree(arena, free, link);
    DistinctOnce(free);
  }

  /** A sequence without repetitions holds each of its entries once. */
  lemma {:induction false} DistinctOnce(q: seq<PktId>)
    requires forall i, j :: 0 <= i < j < |q| ==> q[i] != q[j]
    ensures NoAlias(multiset(q))
  {
    if q != [] {
      DistinctOnce(q[1..]);
      assert q == [q[0]] + q[1..];
      assert q[0] !in q[1..];
      AddFresh(multiset(q[1..]), q[0]);
    }
  }

  class Intf {
    /** This interface's own address. */
    const me: Addr
    var arena: seq<Packet>
    var free: seq<PktId>
    /** Packets delivered to the upper layer. */
    var rxHead: seq<PktId>
    /** Packets the upper layer wants sent. */
    var txHead: seq<PktId>
    /** Packets to be sent once, outside any transmit record. */
    var directHead: seq<PktId>
    const rxRecs: array<RxRec>
    var rxOrder: seq<nat>
    const txRecs: array<TxRec>
    var txOrder: seq<nat>
    var link: seq<TxOutcome>
    var wire: seq<Packet>

    ghost function View(): Snap
      reads this, rxRecs, txRecs
    {
      Snap(arena, free, rxHead, txHead, directHead, rxRecs[..], rxOrder,
           txRecs[..], txOrder, link, wire)
    }

    ghost predicate Valid()
      reads this, rxRecs, txRecs
    {
      SnapOk(View())
    }

    /** `cdnet_intf_init` followed by `cdnet_seq_init`, over the given
        packet arena and free pool. */
    constructor (me: Addr, arena: seq<Packet>, free: seq<PktId>, link: seq<TxOutcome>)
      requires InArena(free, |arena|)
      ensures Valid() && this.me == me
      ensures View() == InitSnap(arena, free, link)
    {
      var rx := new RxRec[SEQ_RX_REC_MAX];
      var i := 0;
      while i < SEQ_RX_REC_MAX
        invariant 0 <= i <= SEQ_RX_REC_MAX
        invariant forall j :: 0 <= j < i ==> rx[j] == RX_REC_INIT
      {
        rx[i] := RX_REC_INIT;
        i := i + 1;
      }
      var tx := new TxRec[SEQ_TX_REC_MAX];
      i := 0;
      while i < SEQ_TX_REC_MAX
        invariant 0 <= i <= SEQ_TX_REC_MAX
        invariant forall j :: 0 <= j < i ==> tx[j] == TX_REC_INIT
        invariant forall j :: 0 <= j < SEQ_RX_REC_MAX ==> rx[j] == RX_REC_INIT
      {
        tx[i] := TX_REC_INIT;
        i := i + 1;
      }
      this.me := me;
      this.arena := arena;
      this.free := free;
      this.link := link;
      rxHead, txHead, directHead, wire := [], [], [], [];
      rxRecs, txRecs := rx, tx;
      rxOrder, txOrder := Iota(SEQ_RX_REC_MAX), Iota(SEQ_TX_REC_MAX);
      new;
      assert rxRecs[..] == InitSnap(arena, free, link).rxRecs;
      assert txRecs[..] == InitSnap(arena, free, link).txRecs;
      InitHoldsFree(arena, free, link);
    }
  }

  /** Records that hold no packets contribute nothing. */
  lemma NoRecIds(rs: seq<TxRec>)
    requires forall i :: 0 <= i < |rs| ==> rs[i] == TX_REC_INIT
    ensures AllRecIds(rs) == multiset{}
  {
    NoSum(RecIdsSeq(rs), |rs|);
  }

  lemma {:induction false} NoSum(ms: seq<multiset<PktId>>, n: nat)
    requires n <= |ms|
    requires forall i :: 0 <= i < |ms| ==> ms[i] == multiset{}
    ensures Sum(ms, n) == multiset{}
  {
    if n > 0 {
      NoSum(ms, n - 1);
    }
  }

  /** Moving `moved` out of record `i` into the queues keeps what the
      records and queues hold together. */
  lemma TakeFromRec(rs: seq<TxRec>, i: nat, r: TxRec, moved: multiset<PktId>)
    requires i < |rs|
    requires RecIds(rs[i]) == RecIds(r) + moved
    ensures AllRecIds(rs[i := r]) + moved == AllRecIds(rs)
  {
    AllRecIdsUpdate(rs, i, r);
    var a, a' := AllRecIds(rs), AllRecIds(rs[i := r]);
    forall o ensures (a' + moved)[o] == a[o] {
      assert (a' + RecIds(rs[i]))[o] == (a + RecIds(r))[o];
    }
  }

  /** Moving `moved` from the queues into record `i` keeps what the records
      and queues hold together. */
  lemma GiveToRec(rs: seq<TxRec>, i: nat, r: TxRec, moved: multiset<PktId>)
    requires i < |rs|
    requires RecIds(r) == RecIds(rs[i]) + moved
    ensures AllRecIds(rs[i := r]) == AllRecIds(rs) + moved
  {
    AllRecIdsUpdate(rs, i, r);
    var a, a' := AllRecIds(rs), AllRecIds(rs[i := r]);
    forall o ensures a'[o] == (a + moved)[o] {
      assert (a' + RecIds(rs[i]))[o] == (a + RecIds(r))[o];
    }
  }

  /** Handing a packet that nothing held to one queue keeps every packet
      held at most once. */
  lemma AddFresh(before: multiset<PktId>, id: PktId)
    requires forall o :: before[o] <= 1
    requires before[id] == 0
    ensures forall o :: (before + multiset{id})[o] <= 1
  {
  }
}
