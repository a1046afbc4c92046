/**
 * The password hasher (bcrypt), as an ideal one-way function: a hash is
 * matched by exactly the plaintext it was made from. Salts come from a
 * random source and are a parameter here; the cost factor is the one the
 * pre-save hook passes.
 */
module Bcrypt {

  /** A bcrypt digest. `digestOf` is the plaintext it was made from, which only `Compare` consults. */
  datatype Hash = Hash(cost: nat, salt: nat, digestOf: string)

  /** The work factor passed to `bcrypt.hash` by the pre-save hook. */
  const SaltRounds: nat := 10

  /** `bcrypt.hash(plaintext, 10)` with the given random salt. */
  function HashPassword(plaintext: string, salt: nat): (h: Hash)
    ensures h.cost == SaltRounds && h.salt == salt
  {
    Hash(SaltRounds, salt, plaintext)
  }

  /** `bcrypt.compare(candidate, hash)` for a candidate and hash that are both present. */
  function Compare(candidate: string, h: Hash): bool {
    candidate == h.digestOf
  }

  /** Hasher round trip: a hash matches its own plaintext and no other, whatever the salt. */
  lemma CompareHash(candidate: string, plaintext: string, salt: nat)
    ensures Compare(candidate, HashPassword(plaintext, salt)) <==> candidate == plaintext
  {
  }
}
