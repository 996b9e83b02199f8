/** The fixed-width unsigned integer types of the source, as ranges of integers. */
module Ints {

  /** `uint8_t` */
  type uint8 = x: int | 0 <= x < 0x100
  /** `uint16_t` */
  type uint16 = x: int | 0 <= x < 0x1_0000
  /** `uint32_t` */
  type uint32 = x: int | 0 <= x < 0x1_0000_0000

  /** The largest `uint32_t`. */
  const U32_MAX: uint32 := 0xFFFF_FFFF
}
