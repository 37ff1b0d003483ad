/** Types and constants shared by the transport model (quic-go/core/protocol). */
module Protocol {
  type Byte = b: int | 0 <= b < 256

  type Bytes = seq<Byte>

  datatype Option<T> = None | Some(value: T)

  /** The largest value a ByteCount may take on the wire: 2^62 - 1. */
  const MAX_BYTE_COUNT: nat := 0x3FFF_FFFF_FFFF_FFFF

  /** Encryption levels; each has its own packet number space. */
  datatype Level = InitialLevel | HandshakeLevel | OneRttLevel

  /** A packet number that is never sent. */
  const INVALID_PACKET_NUMBER: int := -1

  function Min(a: int, b: int): int {
    if a < b then a else b
  }

  function Max(a: int, b: int): int {
    if a < b then b else a
  }
}
