/** Password hashing (auth.py, lines 20-30): Argon2 through passlib. The
    algorithm itself is not modelled; a `Hasher` is any pair of functions
    that satisfies the properties the service depends on, collected in
    `Sound`. */
module Passwords {
  /** The random salt passlib draws on every call to `hash`. */
  type Salt = nat

  datatype Hasher = Hasher(hash: (string, Salt) -> string, verify: (string, string) -> bool)

  /** Length of an encoded argon2id hash under passlib's defaults:
      `$argon2id$v=19$m=65536,t=3,p=4$` (31 characters), a 16-byte salt in
      base64 (22), a `$` and a 32-byte digest in base64 (43). */
  const EncodedHashMinLength := 97

  /** The stated properties of the hasher: a hash verifies against its own
      password and no other, two salts give two encodings, and every encoding
      is at least `EncodedHashMinLength` characters long. */
  ghost predicate Sound(h: Hasher) {
    && (forall p, s :: h.verify(p, h.hash(p, s)))
    && (forall p, q, s :: q != p ==> !h.verify(q, h.hash(p, s)))
    && (forall p, s1, s2 :: s1 != s2 ==> h.hash(p, s1) != h.hash(p, s2))
    && (forall p, s :: |h.hash(p, s)| >= EncodedHashMinLength)
  }

  function GetPasswordHash(h: Hasher, password: string, salt: Salt): string {
    h.hash(password, salt)
  }

  function VerifyPassword(h: Hasher, plain: string, hashed: string): bool {
    h.verify(plain, hashed)
  }

  /** A password verifies against its own hash, whatever the salt. */
  lemma HashVerifies(h: Hasher, password: string, salt: Salt)
    requires Sound(h)
    ensures VerifyPassword(h, password, GetPasswordHash(h, password, salt))
  {
  }

  /** Any other password is rejected. */
  lemma WrongPasswordRejected(h: Hasher, password: string, other: string, salt: Salt)
    requires Sound(h) && other != password
    ensures !VerifyPassword(h, other, GetPasswordHash(h, password, salt))
  {
  }

  /** Hashing the same password twice (with two fresh salts) gives two
      different strings, both of which verify. */
  lemma HashesOfSamePasswordDiffer(h: Hasher, password: string, s1: Salt, s2: Salt)
    requires Sound(h) && s1 != s2
    ensures GetPasswordHash(h, password, s1) != GetPasswordHash(h, password, s2)
    ensures VerifyPassword(h, password, GetPasswordHash(h, password, s1))
    ensures VerifyPassword(h, password, GetPasswordHash(h, password, s2))
  {
  }

  /** A hash is never equal to a password shorter than the encoded length. */
  lemma HashIsNotPlaintext(h: Hasher, password: string, salt: Salt)
    requires Sound(h) && |password| < EncodedHashMinLength
    ensures GetPasswordHash(h, password, salt) != password
  {
  }

  // A concrete hasher that satisfies `Sound`, showing that the properties
  // are consistent. It is not Argon2 and is not used by the model.

  function Padding(salt: Salt): string {
    seq(EncodedHashMinLength + salt, _ => '#')
  }

  function WitnessHash(password: string, salt: Salt): string {
    Padding(salt) + "$" + password
  }

  ghost predicate WitnessVerify(plain: string, hashed: string) {
    exists salt: Salt :: WitnessHash(plain, salt) == hashed
  }

  /** The encoding determines the salt and the password. */
  lemma {:induction false} WitnessHashInjective(p: string, s: Salt, q: string, t: Salt)
    requires WitnessHash(p, s) == WitnessHash(q, t)
    ensures p == q && s == t
  {
    var e := WitnessHash(p, s);
    var m := EncodedHashMinLength + (if s < t then s else t);
    assert e[m] == WitnessHash(q, t)[m];
    var n := EncodedHashMinLength + s + 1;
    assert p == e[n..];
    assert q == WitnessHash(q, t)[n..];
  }

  lemma SoundSatisfiable()
    ensures exists h: Hasher :: Sound(h)
  {
    var h := Hasher(WitnessHash, WitnessVerify);
    forall p, s ensures h.verify(p, h.hash(p, s)) {
      assert WitnessHash(p, s) == h.hash(p, s);
    }
    forall p, q, s | q != p ensures !h.verify(q, h.hash(p, s)) {
      if h.verify(q, h.hash(p, s)) {
        var t: Salt :| WitnessHash(q, t) == WitnessHash(p, s);
        WitnessHashInjective(p, s, q, t);
      }
    }
    forall p, s1, s2 | s1 != s2 ensures h.hash(p, s1) != h.hash(p, s2) {
      if h.hash(p, s1) == h.hash(p, s2) {
        WitnessHashInjective(p, s1, p, s2);
      }
    }
    assert Sound(h);
  }
}
