/** Bytes, as every codec and wire of the panel sees them. */
module Bytes {
  type Byte = x: int | 0 <= x < 256
}
