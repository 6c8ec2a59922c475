/** The unsigned machine words of the sources. */
module Words {
  type Byte = b: int | 0 <= b < 256
  type Word16 = v: nat | v < 0x1_0000
  type Word32 = v: nat | v < 0x1_0000_0000
  type Word64 = v: nat | v < 0x1_0000_0000_0000_0000

  /** 64-bit addition. */
  function Add64(a: Word64, b: Word64): Word64 {
    (a + b) % 0x1_0000_0000_0000_0000
  }
}
