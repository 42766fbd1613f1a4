/** Machine integer widths used by the renderer: Rust's `u8` and `u32`. */
module Bytes {
  /** A Rust `u8`. */
  type U8 = x: int | 0 <= x < 0x100

  /** A Rust `u32`. */
  type U32 = x: int | 0 <= x < 0x1_0000_0000

  /** `u32::MAX`. */
  const U32_MAX: int := 0xFFFF_FFFF
}
