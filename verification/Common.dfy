/** Types and constants that several parts share. */
module Common {

  datatype Option<T> = None | Some(value: T)

  /** One of each for the two arms. */
  datatype Pair<T> = Pair(left: T, right: T)

  type byte = b: nat | b < 256

  /** The largest standard CAN identifier. */
  const SFF_MASK: nat := 0x7ff

  const U64_MAXIMUM: nat := 0xffff_ffff_ffff_ffff
}
