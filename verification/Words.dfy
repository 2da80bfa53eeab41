/** Ranges of the source's unsigned integer types. */
module Words {
  const U32 := 0x1_0000_0000
  const U64 := 0x1_0000_0000_0000_0000
}
