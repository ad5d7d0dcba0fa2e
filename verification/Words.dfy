/** Machine words: the sizes at which they wrap around, and bytes. */
module Words {

  const WORD32 := 0x1_0000_0000
  const WORD64 := 0x1_0000_0000_0000_0000

  type Byte = b: nat | b < 256 witness 0
  type Bytes = seq<Byte>
}
