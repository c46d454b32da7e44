/** Unsigned bytes, the element type of the analyser's frequency snapshot
    (a Uint8Array) and of the canvas pixel data read for hit testing. */
module Bytes {

  type Byte = x: int | 0 <= x < 256

  const BYTE_MAX: int := 255
}
