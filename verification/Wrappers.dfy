/** What every part of the model shares. */
module Wrappers {
  datatype Option<+T> = None | Some(value: T)

  type Octet = n: int | 0 <= n < 256
}
