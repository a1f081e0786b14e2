/** What several modules share: an optional value, and the size of a 32-bit word. */
module Common {
  datatype Option<+T> = None | Some(value: T)

  const WORD := 0x1_0000_0000
}
