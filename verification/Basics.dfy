/** Types shared by every component: results, register words and bytes, and Go's 64-bit integers. */
module Basics {

  datatype Option<+T> = None | Some(value: T)

  datatype Result<+T, +E> = Ok(value: T) | Err(error: E)

  /** A 16-bit Modbus register (MODBUS Application Protocol V1.1b3, section 4.2). */
  type Word = x: int | 0 <= x < 0x1_0000

  type Byte = x: int | 0 <= x < 0x100

  const TWO_63: int := 0x8000_0000_0000_0000
  const TWO_64: int := 0x1_0000_0000_0000_0000

  type Int64 = x: int | -0x8000_0000_0000_0000 <= x < 0x8000_0000_0000_0000
  type Uint64 = x: int | 0 <= x < 0x1_0000_0000_0000_0000

  /** Go's uint64(x) for an int64. */
  function ToUint64(x: Int64): Uint64 {
    if x < 0 then x + TWO_64 else x
  }

  /** Go's int64(x) for a uint64. */
  function ToInt64(x: Uint64): Int64 {
    if x >= TWO_63 then x - TWO_64 else x
  }

  /** The value a 64-bit signed register keeps of an unbounded integer. */
  function WrapInt64(x: int): Int64 {
    ToInt64(x % TWO_64)
  }

  /** Capacity of the command channel of the polling service. */
  const COMMAND_QUEUE_SIZE: nat := 32

  function Min(a: int, b: int): int {
    if a < b then a else b
  }

  function Max(a: int, b: int): int {
    if a < b then b else a
  }
}
