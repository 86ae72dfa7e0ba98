/** Password hashing: an unsalted digest of the password. The digest function
    (hex-encoded SHA-256) is a parameter; nothing is assumed about it beyond being a
    function, in particular not that it is injective. */
module Crypto {

  type Hasher = string -> string

  function HashPassword(hash: Hasher, password: string): string
  {
    hash(password)
  }

  /** comparePassword: re-hash the candidate and compare digests. */
  function ComparePassword(hash: Hasher, password: string, hashedPassword: string): (same: bool)
    ensures same <==> HashPassword(hash, password) == hashedPassword
  {
    hash(password) == hashedPassword
  }

  /** A password always matches its own stored digest. */
  lemma ComparePasswordAcceptsOwnHash(hash: Hasher, password: string)
    ensures ComparePassword(hash, password, HashPassword(hash, password))
  {
  }
}
