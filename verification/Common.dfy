/** Types that several components share. */
module Common {
  datatype Option<+T> = None | Some(value: T)

  type Byte = x: int | 0 <= x < 256
}
