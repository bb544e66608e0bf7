/** SHA-256, idealised: a digest determines what was hashed.

    A digest of a structured value stands for the digest of its canonical JSON bytes, which
    determine the value. */
module Hashing {
  datatype Digest<+T> = Sha256(preimage: T)
}
