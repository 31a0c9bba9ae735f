/** Machine integer ranges and the Option wrapper shared by every module. */
module Common {

  /** Rust `u8`: a byte, and also the type of pattern indices and sample numbers. */
  type u8 = x: int | 0 <= x < 0x100

  /** Rust `u16`: hardware periods. */
  type u16 = x: int | 0 <= x < 0x1_0000

  /** Rust `u32`: the values fed to the statistics accumulator. */
  type u32 = x: int | 0 <= x < 0x1_0000_0000

  const U32_MAX: int := 0xFFFF_FFFF

  datatype Option<+T> = None | Some(value: T)
}
