/** `utils/common.ts`: `numberEnumToArray` and `verifyAccessToken`. */
module Common {
  import opened Wrappers
  import opened Enums
  import opened Errors
  import opened Jwt

  /** A value of a TypeScript enum object: numeric enums also map names back to strings. */
  datatype EnumValue = Num(n: int) | Str(s: string)

  /** `Object.values(UserVerifyStatus)`: the reverse-mapping names (integer keys first), then the numbers. */
  function UserVerifyStatusObjectValues(): seq<EnumValue> {
    [Str("Unverified"), Str("Verified"), Str("Banned"), Num(Unverified.Value()), Num(Verified.Value()), Num(Banned.Value())]
  }

  /** `numberEnumToArray`: the numeric values, in their order. */
  function NumberEnumToArray(values: seq<EnumValue>): (r: seq<int>)
    ensures |r| <= |values|
    ensures forall n :: n in r <==> Num(n) in values
  {
    if values == [] then []
    else (if values[0].Num? then [values[0].n] else []) + NumberEnumToArray(values[1..])
  }

  /** The filter keeps order: it distributes over concatenation. */
  lemma {:induction false} NumberEnumToArrayConcat(a: seq<EnumValue>, b: seq<EnumValue>)
    ensures NumberEnumToArray(a + b) == NumberEnumToArray(a) + NumberEnumToArray(b)
  {
    if a == [] {
      assert a + b == b;
    } else {
      assert (a + b)[1..] == a[1..] + b;
      NumberEnumToArrayConcat(a[1..], b);
    }
  }

  /** On the verify-status enum the result is [0, 1, 2]. */
  lemma NumberEnumToArrayOfUserVerifyStatus()
    ensures NumberEnumToArray(UserVerifyStatusObjectValues()) == [0, 1, 2]
  {
    var v := UserVerifyStatusObjectValues();
    assert v[3..][1..] == v[4..] && v[4..][1..] == v[5..] && v[5..][1..] == [];
    assert NumberEnumToArray(v[5..]) == [2];
    assert NumberEnumToArray(v[4..]) == [1, 2];
    assert NumberEnumToArray(v[3..]) == [0, 1, 2];
    assert v[1..] == v[1..][..] && v[1..][1..] == v[2..] && v[2..][1..] == v[3..];
  }

  /** What leaves a `catch` block: an `ErrorsWithStatus`, or a library `Error` rethrown as it is (kept as its message). */
  datatype Thrown = Raised(status: ErrorsWithStatus) | Rethrown(text: string)

  /** The `msg` express-validator keeps when a custom validator throws `t`. */
  function AsMsg(t: Thrown): (m: Msg)
    ensures t.Raised? ==> m == WithStatus(t.status)
    ensures t.Rethrown? ==> m.Text?
  {
    match t
    case Raised(e) => WithStatus(e)
    case Rethrown(t) => Text(ErrorText(t))
  }

  /** The shared catch: a JsonWebTokenError becomes a 401 with its capitalised message, anything else is rethrown. */
  function CatchJwt(e: JwtError): (t: Thrown)
    ensures e.IsJsonWebTokenError() <==> t.Raised?
    ensures t.Raised? ==> t.status.status == UNAUTHORIZED
    ensures t.Raised? ==> t.status.message == Capitalized(ErrorText(e.Text()))
    ensures t.Rethrown? ==> t.text == e.Text()
  {
    if e.IsJsonWebTokenError() then Raised(ErrorsWithStatus(Capitalized(ErrorText(e.Text())), UNAUTHORIZED))
    else Rethrown(e.Text())
  }

  /** With a request: the payload is stored on `req.decode_authorization` and `true` is returned; without one: the payload is returned. */
  datatype AccessOutcome = AttachedToRequest(decode_authorization: Payload) | Returned(payload: Payload)

  /**
   * `verifyAccessToken(access_token, req?)`. `token` is `None` for `undefined`.
   * Only the signature (and expiry) is checked; no store is consulted.
   */
  function VerifyAccessToken(codec: Codec, cfg: Config, token: Option<string>, withRequest: bool, now: int): (r: Result<AccessOutcome, Thrown>)
    ensures (token.None? || token.value == "") ==> r == Failure(Raised(ErrorsWithStatus(AccessTokenIsRequired, UNAUTHORIZED)))
    ensures token.Some? && token.value != "" ==>
      match codec.verify(cfg.accessSecret, token.value, now)
      case Success(p) => r == Success(if withRequest then AttachedToRequest(p) else Returned(p))
      case Failure(e) => r == Failure(CatchJwt(e))
  {
    if token.None? || token.value == "" then
      // thrown inside the try, not a JsonWebTokenError: rethrown unchanged
      Failure(Raised(ErrorsWithStatus(AccessTokenIsRequired, UNAUTHORIZED)))
    else
      match codec.verify(cfg.accessSecret, token.value, now)
      case Failure(e) => Failure(CatchJwt(e))
      case Success(p) => Success(if withRequest then AttachedToRequest(p) else Returned(p))
  }

  /** An expired token is a JsonWebTokenError and so is turned into a 401, never rethrown. */
  lemma ExpiredAccessTokenIs401(codec: Codec, cfg: Config, token: string, withRequest: bool, now: int)
    requires token != ""
    requires codec.verify(cfg.accessSecret, token, now) == Failure(TokenExpired)
    ensures VerifyAccessToken(codec, cfg, Some(token), withRequest, now).Failure?
    ensures VerifyAccessToken(codec, cfg, Some(token), withRequest, now).error.Raised?
    ensures VerifyAccessToken(codec, cfg, Some(token), withRequest, now).error.status.status == UNAUTHORIZED
  {
  }

  /** A freshly signed access token is accepted until it expires, and yields exactly its payload. */
  lemma SignedAccessTokenAccepted(codec: Codec, cfg: Config, p: Payload, o: ClaimOrder, withRequest: bool, now: int)
    requires Sound(codec)
    requires now < p.exp
    ensures VerifyAccessToken(codec, cfg, Some(codec.sign(cfg.accessSecret, p, o)), withRequest, now)
            == Success(if withRequest then AttachedToRequest(p) else Returned(p))
  {
    SignedIsTrimmed(codec, cfg.accessSecret, p, o);
  }
}
