/** What many modules share: a byte, and a value that may be missing. */
module Common {

  type Byte = b: nat | b < 256

  datatype Option<+T> = None | Some(value: T)
}
