/** Bytes and content digests. */
module Hashing {

  newtype Byte = b: int | 0 <= b < 256

  type Data = seq<Byte>

  datatype Digest = Digest(value: nat)

  /** The content hash: some fixed function of the bytes. Nothing more is known about it. */
  const Blake3: Data -> Digest

  datatype Option<+T> = None | Some(value: T)

  function Min(a: nat, b: nat): (m: nat)
    ensures m <= a && m <= b && (m == a || m == b)
  {
    if a < b then a else b
  }
}
