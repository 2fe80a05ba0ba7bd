/** Hashes as opaque 32-byte values, and the byte type shared by every codec. */
module Hashes {
  type Byte = b: nat | b < 256

  const HASH_SIZE := 32

  type Bytes32 = s: seq<Byte> | |s| == HASH_SIZE witness seq(HASH_SIZE, _ => 0)

  datatype Hash = Hash(bytes: Bytes32)

  /**
    The pair hash is a parameter of everything built on it: no theorem depends on SHA-256,
    so each one holds for every function of two hashes.
   */
  type HashFn = (Hash, Hash) -> Hash

  datatype Result<+T> = Success(value: T) | Failure(error: string)
  datatype Option<+T> = None | Some(value: T)
}
