/** Vocabulary shared by the whole cdnet model: machine integer ranges, the
    configuration constants, addresses, packets, and the arithmetic on 7-bit
    sequence numbers and on the wrapping 32-bit tick counter. */
module CdnetTypes {

  type byte = x: int | 0 <= x < 0x100
  type u16 = x: int | 0 <= x < 0x1_0000
  type u32 = x: int | 0 <= x < 0x1_0000_0000

  /** A packet is named by its slot in the packet arena. */
  type PktId = nat

  // Configuration of the sequenced transport.
  const SEQ_RX_REC_MAX: nat := 5
  const SEQ_TX_REC_MAX: nat := 5
  const SEQ_TX_PEND_MAX: nat := 3
  const SEQ_TX_ACK_CNT: nat := 3
  const SEQ_TX_RETRY_MAX: nat := 3
  const SEQ_TIMEOUT: u32 := 500
  const CDNET_DEF_PORT: u16 := 0xcdcd

  // The `multi` field is two flag bits: bit 0 multicast, bit 1 network address.
  type Multi = x: int | 0 <= x < 4
  const MULTI_NONE: Multi := 0
  const MULTI_CAST: Multi := 1
  const MULTI_NET: Multi := 2

  const FRAG_NONE: nat := 0

  /** A sequence number with bit 7 set: "not synchronised with the peer". */
  const SEQ_UNSYNC: byte := 0x80

  datatype Option<T> = None | Some(value: T)

  datatype Addr = Addr(net: byte, mac: byte)

  /** The sentinel address every record starts with. */
  const NO_ADDR: Addr := Addr(255, 255)

  datatype Level = L0 | L1 | L2

  /** The in-memory packet.  `seqNum`, `reqAck` and `sendTime` are the
      transient fields used only while the packet is in flight; the payload
      length is `|dat|`. */
  datatype Packet = Packet(
    level: Level,
    sequenced: bool,
    multi: Multi,
    frag: nat,
    l2Flag: byte,
    srcMac: byte,
    dstMac: byte,
    srcAddr: Addr,
    dstAddr: Addr,
    srcPort: u16,
    dstPort: u16,
    dat: seq<byte>,
    seqNum: byte,
    reqAck: bool,
    sendTime: u32)

  /** Bit 0 of `multi`. */
  predicate IsCast(m: Multi) {
    m % 2 == 1
  }

  /** `m &= ~MULTI_CAST & 3`. */
  function ClearCast(m: Multi): (r: Multi)
    ensures !IsCast(r) && (r >= MULTI_NET <==> m >= MULTI_NET)
  {
    m - m % 2
  }

  /** Advancing a sequence number: `(n + 1) & 0x7f`, which keeps the low
      seven bits, that is the remainder modulo 128.  The result is always a
      synchronised number and never the number it advanced from. */
  function Advance(n: byte): (r: byte)
    ensures !Unsync(r) && r != n
    ensures n < 0x7f ==> r == n + 1
    ensures n == 0x7f ==> r == 0
  {
    (n + 1) % 128
  }

  /** Bit 7 of a sequence number. */
  predicate Unsync(n: byte)
    ensures Unsync(n) <==> n >= 0x80
  {
    (n as bv8) & 0x80 != 0
  }

  /** The unsigned 32-bit difference `now - since`. */
  function Elapsed(now: u32, since: u32): (d: u32)
    ensures (since + d) % 0x1_0000_0000 == now
  {
    (now - since) % 0x1_0000_0000
  }

  /** The unsigned 32-bit value `now - dt`. */
  function Rewind(now: u32, dt: u32): (t: u32)
    ensures Elapsed(now, t) == dt
  {
    (now - dt) % 0x1_0000_0000
  }

  /** A request or packet stamped at `since` has waited longer than `limit`. */
  predicate TimedOut(now: u32, since: u32, limit: int) {
    Elapsed(now, since) > limit
  }
}
