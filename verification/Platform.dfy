/**
  Constants and small value types shared by the whole platform layer
  (src/platform-esp32.h and the C types its sources use).
 */
module Platform {

  const MS_PER_S: nat := 1000
  const US_PER_MS: nat := 1000
  const US_PER_S: nat := 1_000_000
  const INT32_MAX: nat := 0x7fff_ffff
  const UINT32_RANGE: nat := 0x1_0000_0000
  const UINT8_RANGE: nat := 0x100

  /** The first descriptor reserved for the platform driver; the event file uses it. */
  const RESERVED_FD_MIN: nat := 8

  type uint8 = n: int | 0 <= n < 0x100
  type uint16 = n: int | 0 <= n < 0x1_0000
  type uint32 = n: int | 0 <= n < 0x1_0000_0000

  datatype Option<+T> = None | Some(value: T)

  /** `struct timeval` */
  datatype Timeval = Timeval(sec: int, usec: int) {

    function Micros(): int {
      sec * US_PER_S + usec
    }

    predicate Normalised() {
      && 0 <= sec
      && 0 <= usec < US_PER_S
    }
  }
}
