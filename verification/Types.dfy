/** Bytes, 32-bit words, and a value or nothing. */
module Types {
  type Byte = b: int | 0 <= b < 256

  type Word = w: int | 0 <= w < 0x1_0000_0000

  datatype Option<T> = None | Some(value: T)
}
