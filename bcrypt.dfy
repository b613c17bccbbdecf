/** bcrypt kept abstract: `hash` yields a salted digest, and `compare` accepts a candidate
    password against a digest exactly when it is the password that was hashed. */
module Bcrypt {

  datatype Digest = Digest(salt: nat, secret: string)

  /** `bcrypt.compare(candidate, digest)`. */
  predicate Compare(candidate: string, d: Digest) {
    candidate == d.secret
  }

  /** `bcrypt.hash(password, saltRounds)`; the random salt is a parameter. The digest accepts
      the password it was made from, and no other. */
  function Hash(password: string, salt: nat): (d: Digest)
    ensures Compare(password, d)
    ensures forall candidate :: Compare(candidate, d) ==> candidate == password
  {
    Digest(salt, password)
  }
}
