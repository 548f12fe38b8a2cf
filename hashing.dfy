/** The password hasher as the workflow sees it: bcrypt's
    `GenerateFromPassword` and `CompareHashAndPassword`, left abstract.
    The salt that makes hashing nondeterministic is an explicit input. */
module Hashing {
  import opened Domain

  /** Randomness drawn by one call of the hash function. */
  type Salt = nat

  /** `generate(password, salt)` yields a self-describing hash or an error
      text; `compare(hash, password)` yields `None` when the password matches
      the hash and an error text otherwise. */
  datatype Hasher = Hasher(
    generate: (string, Salt) -> Result<string, string>,
    compare: (string, string) -> Option<string>)

  /** What bcrypt guarantees: a hash it produced verifies the password it
      was produced from. */
  ghost predicate Consistent(h: Hasher)
  {
    forall password: string, salt: Salt ::
      h.generate(password, salt).Ok? ==> h.compare(h.generate(password, salt).value, password) == None
  }
}
