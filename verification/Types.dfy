/**
Small types the components share.
 */
module Types {
  import opened Bytes

  /** An IPv4 address. */
  type Address = Word

  /** Nanoseconds on the system clock. */
  type Time = int

  const SECOND: Time := 1_000_000_000

  /** `time_point_t::min()`: never. */
  const MIN_TIME: Time := -0x8000_0000_0000_0000

  datatype Option<+T> = None | Some(value: T)

  /** How a message reached this node. */
  datatype NetworkInfo = NetworkInfo(receptionTime: Time, sender: Address, receiver: Address, adapter: Address)
}
