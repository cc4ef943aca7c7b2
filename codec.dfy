/** The signed-token codec (JSON Web Tokens signed with a shared secret), taken as
    the identity on a claim set: a token either carries the claims it was
    encoded from, or is malformed / badly signed and cannot be decoded. */
module TokenCodec {
  import opened Http

  /** A claim value as it travels in the token's JSON body. */
  datatype Claim = Text(s: string) | Number(n: int)

  type Claims = map<string, Claim>

  datatype Token = Jwt(claims: Claims) | Malformed

  function Encode(claims: Claims): (t: Token)
    ensures t.Jwt? && t.claims == claims
  {
    Jwt(claims)
  }

  /** Decoding fails exactly for tokens that no `Encode` call produced. */
  function Decode(t: Token): (r: Result<Claims>)
    ensures r.Ok? <==> t.Jwt?
    ensures r.Ok? ==> Encode(r.value) == t
    ensures r.Err? ==> r.failure.Crash?
  {
    match t
    case Jwt(c) => Ok(c)
    case Malformed => Err(Crash("JWTError"))
  }

  lemma DecodeEncode(c: Claims)
    ensures Decode(Encode(c)) == Ok(c)
  {
  }

  /** Python truthiness of a claim value: the empty string and zero are false. */
  predicate Falsy(v: Claim) {
    v == Text("") || v == Number(0)
  }
}
