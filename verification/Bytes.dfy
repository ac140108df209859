/** Bytes shared by every component that handles raw content. */
module Bytes {
  type Byte = i: int | 0 <= i < 256
  type Bytes = seq<Byte>

  /** A digest of raw bytes; ideally no two contents share one. */
  datatype Hasher = Hasher(digest: Bytes -> string) {
    ghost predicate Ideal() {
      forall x: Bytes, y: Bytes :: digest(x) == digest(y) ==> x == y
    }
  }
}
