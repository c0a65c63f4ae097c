/**
 * Password hashing of src/security/auth.py (`Auth.password_hash`,
 * `Auth.verify_password`). The Argon2 function itself is a parameter: a
 * `Hasher` is any function from (password, salt) to a digest.
 */
module Hashing {
  import opened Wrappers

  datatype Hasher = Hasher(digest: (string, string) -> string)

  /** A stored hash string: one the library can parse, or text it rejects. */
  datatype StoredHash = Argon2(salt: string, digest: string) | Unparseable(text: string)

  /** An exception `verify_password` lets through (`InvalidHashError`). */
  datatype HashError = InvalidHash

  /** `Auth.password_hash`: the salt stands for the one the library draws. */
  function PasswordHash(h: Hasher, password: string, salt: string): (stored: StoredHash)
    ensures stored.Argon2? && stored.salt == salt
  {
    Argon2(salt, h.digest(password, salt))
  }

  /**
   * `Auth.verify_password`: `true` on a match; a mismatch (`VerifyMismatchError`)
   * becomes `false`; a hash the library cannot parse raises, since only the
   * mismatch error is caught.
   */
  function VerifyPassword(h: Hasher, password: string, stored: StoredHash): (r: Result<bool, HashError>)
    ensures r.Failure? <==> stored.Unparseable?
    ensures r.Success? ==> (r.value <==> h.digest(password, stored.salt) == stored.digest)
  {
    match stored
    case Unparseable(_) => Failure(InvalidHash)
    case Argon2(salt, digest) => Success(h.digest(password, salt) == digest)
  }

  lemma VerifyHashed(h: Hasher, password: string, salt: string)
    ensures VerifyPassword(h, password, PasswordHash(h, password, salt)) == Success(true)
  {
  }
}
