/** Stand-ins for the two hash functions the core calls: bcrypt for passwords
    and for the credential half of reset tokens, SHA-256 for the lookup half.
    Each is modelled as an injective constructor, which is exactly what the
    core relies on: a password verifies against its own hash and against no
    other, and two tokens never share a lookup hash. */
module Crypto {

  /** A bcrypt hash: the salt gensalt() drew and the secret it was computed
      from. Nothing in the core looks inside a digest except VerifyPassword. */
  datatype Digest = Bcrypt(salt: nat, secret: string)

  /** hash_password: hashpw(password, gensalt()); the salt is the fresh value
      gensalt() returns. */
  function HashPassword(password: string, salt: nat): (h: Digest)
    ensures VerifyPassword(password, h)
  {
    Bcrypt(salt, password)
  }

  /** verify_password: checkpw(plain, hashed). */
  predicate VerifyPassword(plain: string, hashed: Digest)
  {
    hashed.secret == plain
  }

  /** verify_password(q, hash_password(p)) is false for every q other than p. */
  lemma VerifyRejectsOtherPassword(p: string, q: string, salt: nat)
    requires q != p
    ensures !VerifyPassword(q, HashPassword(p, salt))
  {
  }

  /** Hashing the same password twice with two salts gives two different
      digests, and both verify. */
  lemma SaltedHashesDiffer(p: string, salt1: nat, salt2: nat)
    requires salt1 != salt2
    ensures HashPassword(p, salt1) != HashPassword(p, salt2)
    ensures VerifyPassword(p, HashPassword(p, salt1)) && VerifyPassword(p, HashPassword(p, salt2))
  {
  }

  /** A SHA-256 digest of a token: deterministic and unsalted. */
  datatype LookupDigest = Sha256(of: string)

  /** hash_token_sha256. */
  function HashTokenSha256(token: string): (h: LookupDigest)
  {
    Sha256(token)
  }

  /** Equal lookup hashes come from equal tokens. */
  lemma LookupHashInjective(t1: string, t2: string)
    ensures HashTokenSha256(t1) == HashTokenSha256(t2) <==> t1 == t2
  {
  }
}
