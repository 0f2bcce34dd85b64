/**
 * The cryptography the scripts call into and that the model leaves
 * uninterpreted: `ethers.keccak256`, and `wallet.signingKey.sign` followed by
 * `.serialized`.
 */
module Crypto {
  import opened Bytes

  /** A hash function and the account's (serialized) signing function. */
  datatype Primitives = Primitives(keccak256: seq<Byte> -> seq<Byte>, sign: seq<Byte> -> seq<Byte>)

  /** The idealisation under which distinct messages have distinct digests. */
  ghost predicate CollisionFree(hash: seq<Byte> -> seq<Byte>)
  {
    forall m1, m2 :: hash(m1) == hash(m2) ==> m1 == m2
  }
}
