/** Types shared by the modules: optional and fallible results, the two network address
    types, and the time unit. */
module Basics {
  datatype Option<+T> = None | Some(value: T)

  datatype Result<+T, +E> = Success(value: T) | Failure(error: E)

  /** One byte, as a number. */
  type Octet = n: nat | n < 256

  datatype MacAddress = MacAddress(m0: Octet, m1: Octet, m2: Octet, m3: Octet, m4: Octet, m5: Octet)

  datatype Ipv4 = Ipv4(a: Octet, b: Octet, c: Octet, d: Octet)

  const U16_MAX: nat := 0xFFFF
  const U32_MAX: nat := 0xFFFF_FFFF
  const U64_MAX: nat := 0xFFFF_FFFF_FFFF_FFFF

  // Instants and durations are whole numbers of nanoseconds.
  const MILLISECOND: nat := 1_000_000
  const SECOND: nat := 1_000_000_000

  function Min(x: int, y: int): int { if x <= y then x else y }

  function Max(x: int, y: int): int { if x <= y then y else x }
}
