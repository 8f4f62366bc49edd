/** Byte strings, shared by the batch splitter, the section codec and the value conversion. */
module Octets {
  newtype Octet = x: int | 0 <= x < 256

  type Bytes = seq<Octet>

  /** Joins a list of byte strings, as `b"".join` does. */
  function Join(chunks: seq<Bytes>): Bytes {
    if chunks == [] then [] else chunks[0] + Join(chunks[1..])
  }
}
