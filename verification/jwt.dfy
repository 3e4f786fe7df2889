/** The parts of a JSON Web Token the program touches: a claim map whose
    values are JSON text, JSON numbers or anything else, and the compact
    serialisation of section 7.1 of RFC 7515 with HS256 (section 3.2 of
    RFC 7518) left abstract. */
module Jwt {
  /** A claim value after JSON decoding: text, a number (a `float64` in Go;
      only non-negative integral values are modelled), or another JSON kind. */
  datatype ClaimValue = CStr(s: string) | CNum(n: nat) | COther

  /** `jwt.MapClaims`. */
  type Claims = map<string, ClaimValue>

  /** What the request context holds under "user": `MapClaims` as
      `Authenticate` stores it, or some value of another Go type. */
  datatype StoredValue = MapClaims(claims: Claims) | Foreign

  /** The base64url encoding of `{"alg":"HS256","typ":"JWT"}`. */
  const HS256Header: string := "eyJhbGciOiJIUzI1NiIsInR5cCI6IkpXVCJ9"

  /** `SignedString` for HS256: header, encoded payload and the MAC of the two,
      joined by dots. The payload encoding and the MAC are parameters. */
  function SignedString(claims: Claims, encode: Claims -> string, mac: string -> string): (token: string)
    ensures |token| >= |HS256Header| + 2
    ensures token[..|HS256Header| + 1] == HS256Header + "."
    ensures |token| >= |HS256Header| + |encode(claims)| + 2
    ensures token[|HS256Header| + 1..|HS256Header| + 1 + |encode(claims)|] == encode(claims)
    ensures token[|HS256Header| + 1 + |encode(claims)|] == '.'
    ensures token[|HS256Header| + |encode(claims)| + 2..] == mac(HS256Header + "." + encode(claims))
  {
    var signingInput := HS256Header + "." + encode(claims);
    signingInput + "." + mac(signingInput)
  }
}
