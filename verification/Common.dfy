/** Vocabulary shared by all parts. */
module Common {
  datatype Option<+T> = None | Some(value: T)

  type U32 = n: int | 0 <= n < 0x1_0000_0000
}
