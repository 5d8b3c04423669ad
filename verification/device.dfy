/**
 * The motor controller as the session sees it: every operation on the device handle either
 * yields a value or fails with an error whose rendered text is kept as a string.
 * The wire protocol behind these operations is not modelled; read values are opaque.
 */
module Device {

  /** An optional cached value, as Rust's `Option`. */
  datatype Option<+T> = None | Some(value: T)

  /** The result of one device (or port) operation; `detail` is the error's `Display` text. */
  datatype Outcome<+T> = Ok(value: T) | Err(detail: string)

  const I32Min: int := -0x8000_0000
  const I32Max: int := 0x7FFF_FFFF

  predicate InI32(x: int)
  {
    I32Min <= x <= I32Max
  }

  type U32 = x: int | 0 <= x < 0x1_0000_0000

  /** The two signed speeds of one `speed_m1_m2` call. */
  datatype SpeedCommand = SpeedCommand(m1: int, m2: int)

  /** The fault-flag register, kept as its raw bits. */
  datatype StatusFlags = StatusFlags(bits: U32)

  /** The configuration register, kept as its raw bits. */
  datatype ConfigFlags = ConfigFlags(bits: U32)

  /** The occupancy report of one channel's command buffer, kept as its raw code. */
  datatype BufferStatus = BufferStatus(raw: nat)

  /** The outcomes of the six reads of one telemetry pass, in the order they are issued. */
  datatype PollReads = PollReads(
    mainVoltage: Outcome<real>,
    logicVoltage: Outcome<real>,
    encoders: Outcome<(U32, U32)>,
    faultFlags: Outcome<StatusFlags>,
    config: Outcome<ConfigFlags>,
    buffers: Outcome<(BufferStatus, BufferStatus)>)
}
