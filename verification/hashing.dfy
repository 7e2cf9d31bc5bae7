/**
 * Password hashing (`utils/hashing.go`), a thin wrapper over bcrypt. bcrypt itself
 * is a parameter: a generator that may fail and that draws a fresh salt on every
 * call (the salt is passed in explicitly), and a comparison.
 */
module Hashing {
  import opened Wrappers

  type Salt = nat

  datatype Bcrypt = Bcrypt(
    generate: (Salt, string) -> Option<string>,
    compare: (string, string) -> bool)

  /** bcrypt's own promise: a digest it produced accepts the password it was made from. */
  ghost predicate Sound(b: Bcrypt) {
    forall salt, pwd, digest {:trigger b.generate(salt, pwd), b.compare(digest, pwd)} ::
      b.generate(salt, pwd) == Some(digest) ==> b.compare(digest, pwd)
  }

  /** `HashPassword`: the digest, or the empty string when bcrypt fails. */
  function HashPassword(b: Bcrypt, salt: Salt, pwd: string): (digest: string)
    ensures b.generate(salt, pwd).None? ==> digest == ""
    ensures Sound(b) && b.generate(salt, pwd).Some? ==> b.compare(digest, pwd)
  {
    b.generate(salt, pwd).GetOr("")
  }

  /** `ComparePassword`: true exactly when bcrypt accepts the password; a sound bcrypt accepts its own digests. */
  function ComparePassword(b: Bcrypt, digest: string, pwd: string): (ok: bool)
    ensures Sound(b) && (exists salt :: b.generate(salt, pwd) == Some(digest)) ==> ok
  {
    b.compare(digest, pwd)
  }
}
