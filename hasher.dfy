/** The password hasher (bcrypt through passlib), idealised: a digest determines
    the password it was made from, and `Verify` accepts exactly that password. */
module PasswordHasher {

  datatype Digest = Bcrypt(source: string)

  function Hash(password: string): (d: Digest)
    ensures Verify(password, d)
  {
    Bcrypt(password)
  }

  predicate Verify(password: string, d: Digest) {
    d.source == password
  }

  /** Only the password a digest was made from verifies against it. */
  lemma VerifyHash(p: string, q: string)
    ensures Verify(p, Hash(q)) <==> p == q
  {
  }
}
