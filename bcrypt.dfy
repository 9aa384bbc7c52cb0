/**
 * bcrypt as an ideal one-way function: `hashSync(c)` yields a digest that
 * `compareSync` accepts for `c` and for nothing else. Salts, cost factors and
 * the digest's text are not modelled; the model never reads a digest except
 * through `Matches`.
 */
module Bcrypt {

  datatype Digest = Digest(secret: string)

  function Hash(c: string): Digest {
    Digest(c)
  }

  predicate Matches(c: string, d: Digest) {
    d == Hash(c)
  }

  lemma MatchesOwnHash(c: string)
    ensures Matches(c, Hash(c))
  {
  }

  lemma MatchesOnlyOwnHash(c: string, other: string)
    requires Matches(c, Hash(other))
    ensures c == other
  {
  }
}
