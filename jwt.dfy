/**
 * The token service (jsonwebtoken): `sign` and `verify` over an abstract
 * codec. The codec's encoding is not modelled; `Sound` states what the
 * model assumes of it.
 */
module Jwt {
  import opened Wrappers

  /** The payload claims the code reads or writes; an absent claim is `None`. */
  datatype Claims = Claims(id: Option<nat>, email: Option<string>, username: Option<string>,
                           fullName: Option<string>)

  /** A decoded token: its claims, the secret it was signed with, and its `iat` and `exp` in seconds. */
  datatype Token = Token(claims: Claims, secret: string, issuedAt: int, expiresAt: int)

  /** The compact serialisation of tokens and its parser. */
  datatype JwtCodec = JwtCodec(encode: Token -> string, decode: string -> Option<Token>)

  /**
   * What the model assumes of the codec: every signed token parses back to
   * itself and is a non-empty string. (Unforgeability is not modelled.)
   */
  ghost predicate Sound(jwt: JwtCodec) {
    forall t :: jwt.decode(jwt.encode(t)) == Some(t) && jwt.encode(t) != ""
  }

  /** The reasons `jwt.verify` throws. */
  datatype VerifyError = Malformed | InvalidSignature | Expired

  /** The `message` of the error `jwt.verify` throws. */
  function VerifyMessage(e: VerifyError): (m: string)
    ensures m != ""
  {
    match e
    case Malformed => "jwt malformed"
    case InvalidSignature => "invalid signature"
    case Expired => "jwt expired"
  }

  /** `jwt.sign(claims, secret, {expiresIn})` at clock time `now` (seconds). */
  function Sign(jwt: JwtCodec, claims: Claims, secret: string, expiresIn: nat, now: int): string {
    jwt.encode(Token(claims, secret, now, now + expiresIn))
  }

  /** `jwt.verify(token, secret)` at clock time `now`: parse, then signature, then expiry. */
  function Verify(jwt: JwtCodec, token: string, secret: string, now: int): Result<Claims, VerifyError> {
    match jwt.decode(token)
    case None => Failure(Malformed)
    case Some(t) =>
      if t.secret != secret then Failure(InvalidSignature)
      else if now >= t.expiresAt then Failure(Expired)
      else Success(t.claims)
  }

  /** Sign/verify round trip: a signed token verifies to its claims under its own secret until it expires. */
  lemma VerifySigned(jwt: JwtCodec, claims: Claims, secret: string, expiresIn: nat, issuedAt: int,
                     key: string, now: int)
    requires Sound(jwt)
    ensures Verify(jwt, Sign(jwt, claims, secret, expiresIn, issuedAt), key, now)
         == if key != secret then Failure(InvalidSignature)
            else if now >= issuedAt + expiresIn then Failure(Expired)
            else Success(claims)
  {
    assert jwt.decode(jwt.encode(Token(claims, secret, issuedAt, issuedAt + expiresIn)))
        == Some(Token(claims, secret, issuedAt, issuedAt + expiresIn));
  }

  /** Two signings give the same string only when claims, secret, lifetime and second of issue agree. */
  lemma SignInjective(jwt: JwtCodec, c1: Claims, s1: string, e1: nat, t1: int,
                      c2: Claims, s2: string, e2: nat, t2: int)
    requires Sound(jwt)
    ensures Sign(jwt, c1, s1, e1, t1) == Sign(jwt, c2, s2, e2, t2)
        <==> c1 == c2 && s1 == s2 && e1 == e2 && t1 == t2
  {
    var a := Token(c1, s1, t1, t1 + e1);
    var b := Token(c2, s2, t2, t2 + e2);
    assert jwt.decode(jwt.encode(a)) == Some(a);
    assert jwt.decode(jwt.encode(b)) == Some(b);
  }
}
