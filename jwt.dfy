/**
 * The token codec behind `signToken` / `verifyToken`, as a collaborator.
 * `sign` and `verify` are parameters of the model; `Sound` states what the
 * rest of the model may assume about them.
 */
module Jwt {
  import opened Wrappers
  import opened Enums
  import Text

  /** The decoded payload: the signed claims plus `iat` and `exp` in seconds. */
  datatype Payload = Payload(user_id: string, token_type: TokenType, verify: UserVerifyStatus, iat: int, exp: int)

  /** What `verifyToken` rejects with. */
  datatype JwtError =
    | TokenExpired             // TokenExpiredError, "jwt expired"
    | NotBefore                // NotBeforeError, "jwt not active"
    | Malformed(text: string)  // JsonWebTokenError, e.g. "invalid signature"
    | Other(text: string)      // anything that is not a JsonWebTokenError
  {
    /** `error instanceof JsonWebTokenError`: the two named errors are its subclasses. */
    predicate IsJsonWebTokenError() { !Other? }

    function Text(): string {
      match this
      case TokenExpired => "jwt expired"
      case NotBefore => "jwt not active"
      case Malformed(t) => t
      case Other(t) => t
    }
  }

  /**
   * The order of the timing claims in the signed JSON. With the `expiresIn`
   * option the library adds `iat` and then `exp` after the given claims; when
   * `exp` is already in the payload, `iat` is added after it.
   */
  datatype ClaimOrder = IatThenExp | ExpThenIat

  /** `sign(secret, payload)` with its claim order, and `verify(secret, token, now)`. */
  datatype Codec = Codec(sign: (string, Payload, ClaimOrder) -> string, verify: (string, string, int) -> Result<Payload, JwtError>)

  /** A signed JWT is three base64url parts: never empty and never containing whitespace. */
  predicate TokenShaped(t: string) {
    t != "" && Text.NoWhitespace(t)
  }

  /** The behaviour of an HMAC-signed JWT library. */
  ghost predicate Sound(c: Codec) {
    && (forall secret: string, p: Payload, o: ClaimOrder :: TokenShaped(c.sign(secret, p, o)))
    && (forall secret: string, p: Payload, o: ClaimOrder, now: int :: now < p.exp ==> c.verify(secret, c.sign(secret, p, o), now) == Success(p))
    && (forall secret: string, p: Payload, o: ClaimOrder, now: int :: now >= p.exp ==> c.verify(secret, c.sign(secret, p, o), now) == Failure(TokenExpired))
    && (forall secret: string, other: string, p: Payload, o: ClaimOrder, now: int :: secret != other ==>
          c.verify(other, c.sign(secret, p, o), now).Failure? &&
          c.verify(other, c.sign(secret, p, o), now).error.IsJsonWebTokenError())
  }

  /**
   * The signed string carries the serialised claims: under one secret,
   * different claims, or the same claims in a different order, give
   * different tokens.
   */
  ghost predicate SignInjective(c: Codec) {
    forall secret: string, p: Payload, o: ClaimOrder, q: Payload, r: ClaimOrder ::
      c.sign(secret, p, o) == c.sign(secret, q, r) ==> p == q && o == r
  }

  /** The `*_SECRET` and `*_EXPIRES_IN` environment variables (lifetimes in seconds). */
  datatype Config = Config(
    accessSecret: string, refreshSecret: string, emailVerifySecret: string, forgotPasswordSecret: string,
    accessExpiresIn: int, refreshExpiresIn: int, emailVerifyExpiresIn: int, forgotPasswordExpiresIn: int)

  /** The four kinds of token are told apart only by their secrets. */
  predicate DistinctSecrets(cfg: Config) {
    && cfg.accessSecret != cfg.refreshSecret
    && cfg.accessSecret != cfg.emailVerifySecret
    && cfg.accessSecret != cfg.forgotPasswordSecret
    && cfg.refreshSecret != cfg.emailVerifySecret
    && cfg.refreshSecret != cfg.forgotPasswordSecret
    && cfg.emailVerifySecret != cfg.forgotPasswordSecret
  }

  predicate PositiveLifetimes(cfg: Config) {
    cfg.accessExpiresIn > 0 && cfg.refreshExpiresIn > 0 && cfg.emailVerifyExpiresIn > 0 && cfg.forgotPasswordExpiresIn > 0
  }

  /** A token signed by a sound codec trims to itself and is not empty (falsy). */
  lemma SignedIsTrimmed(c: Codec, secret: string, p: Payload, o: ClaimOrder)
    requires Sound(c)
    ensures Text.Trim(c.sign(secret, p, o)) == c.sign(secret, p, o) != ""
  {
    Text.TrimNoWhitespace(c.sign(secret, p, o));
  }

  /** A token signed by a sound codec contains no space. */
  lemma SignedHasNoSpace(c: Codec, secret: string, p: Payload, o: ClaimOrder)
    requires Sound(c)
    ensures ' ' !in c.sign(secret, p, o)
  {
    assert Text.IsWhitespace(' ');
  }
}
