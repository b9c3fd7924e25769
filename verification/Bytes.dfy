/** Octets, as the hash and the base64 codec work on them. */
module Bytes {

  newtype byte = x: int | 0 <= x < 256
}
