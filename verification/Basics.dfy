/** Types shared by all components. */
module Basics {

  datatype Option<T> = None | Some(value: T)

  type Byte = b: int | 0 <= b < 256

  /** A file descriptor. */
  type Fd = int

  /** The size of every buffer that a socket is read into. */
  const PAGE_SIZE := 4096
}
