/** The 64-byte descriptor that names a message's slots, and the constants shared by the
    C library and the Python daemons. */
module Descriptor {

  /** A machine byte. */
  type Byte = x: int | 0 <= x < 256
  type Bytes = seq<Byte>

  function Zeros(n: nat): (r: Bytes)
    ensures |r| == n
  {
    seq(n, _ => 0)
  }

  /** Byte `from + k` becomes `data[k]`; the others stay. */
  function Splice(bytes: Bytes, from: nat, data: Bytes): (r: Bytes)
    requires from + |data| <= |bytes|
    ensures |r| == |bytes|
    ensures forall p | 0 <= p < |bytes| :: r[p] == if from <= p < from + |data| then data[p - from] else bytes[p]
  {
    bytes[..from] + data + bytes[from + |data|..]
  }

  /** The number of 32-bit words, and the size of the tables indexed by request id. */
  const WORD: nat := 0x1_0000_0000
  const MAX_PENDING: nat := 256

  // Pool types carried in a descriptor.
  const POOL_NONE := 0
  const POOL_HOST_TX_HEADER := 1
  const POOL_HOST_TX_BODY := 2
  const POOL_HOST_RX_HEADER := 3
  const POOL_HOST_RX_BODY := 4
  const POOL_DPU_TX_HEADER := 5
  const POOL_DPU_TX_BODY := 6
  const POOL_DPU_RX_BODY := 7

  // The low half of `flags` is the case, the high half the operation.
  const CASE_INGRESS := 2
  const CASE_LOCAL := 3
  const OP_REQUEST := 0x00
  const OP_RESPONSE := 0x10

  /** The sixteen fields of a descriptor, in wire order. */
  datatype SwDescriptor = SwDescriptor(
    headerBufSlot: int,
    headerLen: int,
    bodyBufSlot: int,
    bodyLen: int,
    reqId: int,
    stepId: int,
    dstPodId: int,
    srcPodId: int,
    flags: int,
    valid: int,
    srcBodyPoolType: int,
    srcHeaderPoolType: int,
    srcBodyPodId: int,
    srcHeaderPodId: int,
    srcBodyBufSlot: int,
    srcHeaderBufSlot: int
  ) {
    predicate IsResponse() {
      flags / 16 % 16 == 1
    }

    function Case(): int {
      flags % 16
    }
  }
}
