/**
 * Password hashing is done by a library whose code is not part of this
 * model (bcrypt behind helpers.HashPassword / VerifyPassword and behind the
 * layered password package). It enters as a pair of functions; the only
 * thing assumed of it is that a password verifies against its own hash.
 */
module Credentials {
  import opened Common

  /** `hash` is HashPassword (the hash, or the library's error text);
      `verify(plain, hashed)` is VerifyPassword (a verdict and a message). */
  datatype Hasher = Hasher(
    hash: string -> Result<string, string>,
    verify: (string, string) -> (bool, string))

  /** Every hash the library produces verifies against its own password. */
  ghost predicate Sound(h: Hasher)
  {
    forall p: string :: h.hash(p).Ok? ==> h.verify(p, h.hash(p).value).0
  }
}
