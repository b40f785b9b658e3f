/** The JSON Web Token codec the service relies on (python-jose with HS256,
    RFC 7519 and section 3.2 of RFC 7518), reduced to what the service
    observes: a token carries a claims record and a signature, the signature
    is computed by an abstract keyed function, and decoding checks the
    signature and the `exp` claim. Byte encoding is not modelled. */
module Jwt {
  import opened Optional

  /** The claims the service reads or writes: `sub`, `type` and `exp`
      (seconds since the epoch). */
  datatype Claims = Claims(sub: Option<string>, tokenType: Option<string>, exp: int)

  /** A token as received from a client: either well-formed (claims plus
      signature) or text that is not a JWT at all. */
  datatype Token = Signed(claims: Claims, signature: string) | Malformed(text: string)

  /** The keyed signing function (HMAC-SHA256 in the library). */
  type Signer = (string, Claims) -> string

  /** A signer under which tokens issued with one key are never valid under
      another one. This idealises HMAC-SHA256, under which some distinct keys
      do give equal tags (keys differing only in trailing zero bytes, or a
      key longer than the block size and its digest). */
  ghost predicate KeySeparating(sign: Signer) {
    forall k1, k2, c :: k1 != k2 ==> sign(k1, c) != sign(k2, c)
  }

  function Encode(sign: Signer, key: string, claims: Claims): Token {
    Signed(claims, sign(key, claims))
  }

  /** Verifies the signature and the expiry; a token is expired once the
      current time reaches `exp` (section 4.1.4 of RFC 7519). */
  function Decode(sign: Signer, key: string, now: int, t: Token): (r: Option<Claims>)
    ensures r.Some? ==> t.Signed? && r.value == t.claims
  {
    match t
    case Malformed(_) => None
    case Signed(claims, signature) =>
      if signature == sign(key, claims) && now < claims.exp then Some(claims) else None
  }

  /** Decoding what was encoded under the same key gives back the claims
      exactly while they have not expired, and fails afterwards. */
  lemma DecodeEncode(sign: Signer, key: string, now: int, claims: Claims)
    ensures Decode(sign, key, now, Encode(sign, key, claims)) == (if now < claims.exp then Some(claims) else None)
  {
  }

  /** Whatever decodes successfully is exactly the encoding of its claims
      under the verifying key: no other token is accepted. */
  lemma DecodeOnlyGenuine(sign: Signer, key: string, now: int, t: Token)
    requires Decode(sign, key, now, t).Some?
    ensures t == Encode(sign, key, t.claims) && now < t.claims.exp
  {
  }

  /** Under a key-separating signer, rotating the secret key invalidates the
      tokens issued under the old one. */
  lemma KeyRotationInvalidates(sign: Signer, oldKey: string, newKey: string, now: int, claims: Claims)
    requires KeySeparating(sign) && oldKey != newKey
    ensures Decode(sign, newKey, now, Encode(sign, oldKey, claims)) == None
  {
  }

  /** The key-separation axiom is consistent: some signer satisfies it. */
  lemma KeySeparatingSatisfiable()
    ensures exists sign: Signer :: KeySeparating(sign)
  {
    var sign: Signer := (k, c) => k;
    assert KeySeparating(sign);
  }
}
