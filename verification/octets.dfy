/** Bytes as numbers, and sequences of them. */
module Octets {

  type Byte = x: int | 0 <= x < 256

  type Bytes = seq<Byte>
}
