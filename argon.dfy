/**
  The password hasher seen from the handlers: `argon2::hash_encoded` and
  `argon2::verify_encoded` with the fixed Argon2i configuration. Their
  internals are not modelled; a value of `Argon2` stands for the pair, and
  every statement about them is in terms of that value.
*/
module Argon {

  /** `Result<bool, argon2::Error>`: a verdict, or a failure to verify at all. */
  datatype VerifyResult = Verified(matches: bool) | VerifyError

  datatype Argon2 = Argon2(
    /** hash_encoded(password, salt): the self-describing encoded hash */
    hashEncoded: (string, string) -> string,
    /** verify_encoded(encoded, password) */
    verifyEncoded: (string, string) -> VerifyResult)

  /** What the library promises: a password verifies against its own encoded hash. */
  ghost predicate Sound(argon: Argon2) {
    forall password, salt :: argon.verifyEncoded(argon.hashEncoded(password, salt), password) == Verified(true)
  }
}
