/** Small shared vocabulary: optional values, fallible results and octets. */
module Basics {

  datatype Option<+T> = None | Some(value: T)

  datatype Result<+T, +E> = Ok(value: T) | Err(error: E)

  /** One octet. Kept as an integer so lengths can be computed from it. */
  type Byte = b: int | 0 <= b < 256

  type Bytes = seq<Byte>

  /** The longest passphrase or password anything here holds (src/passphrase.rs). */
  const MAX_PASSPHRASE_BYTES: nat := 1024
}
