/**
 * `middlewares/user.middleware.ts`: the custom checks of the user validators,
 * as functions over snapshots of the two collections. Each returns the value
 * it attaches to the request, or the `msg` express-validator records.
 */
module UserMiddleware {
  import opened Wrappers
  import opened Enums
  import opened Errors
  import opened Jwt
  import opened ObjectIds
  import opened UsersSchema
  import opened Collections
  import opened UserService
  import opened Common
  import Validation
  import Text

  /** A 401 `ErrorsWithStatus`. */
  function Unauthorized(m: Message): Msg {
    WithStatus(ErrorsWithStatus(m, UNAUTHORIZED))
  }

  /**
   * `refreshTokenValidator`: the trimmed token must be present, verify under
   * the refresh secret and have a stored record with exactly that string.
   */
  function RefreshTokenValidator(env: Env, rs: seq<RefreshRecord>, raw: string, now: int): (r: Result<Payload, Msg>)
    ensures Text.Trim(raw) == "" ==> r == Failure(Unauthorized(RefreshTokenIsRequired))
    ensures r.Success? ==> HasToken(rs, Text.Trim(raw)) && env.codec.verify(env.cfg.refreshSecret, Text.Trim(raw), now) == Success(r.value)
  {
    var value := Text.Trim(raw);
    if value == "" then Failure(Unauthorized(RefreshTokenIsRequired))
    else
      match env.codec.verify(env.cfg.refreshSecret, value, now)
      case Failure(e) => Failure(AsMsg(CatchJwt(e)))
      case Success(decoded) =>
        // the missing-record error is thrown inside the try; not a JsonWebTokenError, so it is rethrown as it is
        if !HasToken(rs, value) then Failure(Unauthorized(RefreshTokenIsNotExists))
        else Success(decoded)
  }

  /** The catch of `verifyEmailTokenValidator`: every error becomes a 401 with its capitalised message. */
  function RewrapAs401(m: Message): Msg {
    Unauthorized(Capitalized(m))
  }

  /**
   * `verifyEmailTokenValidator`: the trimmed token must be present, verify
   * under the email-verify secret, name an existing user and equal that
   * user's stored `email_verify_token`.
   */
  function VerifyEmailTokenValidator(env: Env, users: seq<User>, raw: string, now: int): (r: Result<Payload, Msg>)
    ensures Text.Trim(raw) == "" ==> r == Failure(Unauthorized(EmailVerifyTokenIsRequired))
    ensures r.Success? ==>
      && env.codec.verify(env.cfg.emailVerifySecret, Text.Trim(raw), now) == Success(r.value)
      && exists k :: 0 <= k < |users| && users[k].id == Parse(r.value.user_id) && users[k].email_verify_token == Text.Trim(raw)
  {
    var value := Text.Trim(raw);
    if value == "" then Failure(Unauthorized(EmailVerifyTokenIsRequired))
    else
      match env.codec.verify(env.cfg.emailVerifySecret, value, now)
      case Failure(e) => Failure(RewrapAs401(ErrorText(e.Text())))
      case Success(decoded) =>
        match Parse(decoded.user_id)
        case None => Failure(RewrapAs401(ErrorText(INVALID_ID_MESSAGE)))
        case Some(id) =>
          match FindUserById(users, id)
          case None => Failure(RewrapAs401(UserNotFound))
          case Some(k) =>
            if users[k].email_verify_token != value then Failure(RewrapAs401(EmailVerifyTokenInvalid))
            else if users[k].email_verify_token == "" then Failure(RewrapAs401(EmailIsVerified))
            else Success(decoded)
  }

  /**
   * `forgotPasswordTokenSchema`: the trimmed token must be present, verify
   * under the forgot-password secret, name an existing user and equal that
   * user's stored `forgot_password_token`.
   */
  function ForgotPasswordTokenValidator(env: Env, users: seq<User>, raw: string, now: int): (r: Result<Payload, Msg>)
    ensures Text.Trim(raw) == "" ==> r == Failure(Unauthorized(ForgotPasswordIsRequired))
    ensures r.Success? ==>
      && env.codec.verify(env.cfg.forgotPasswordSecret, Text.Trim(raw), now) == Success(r.value)
      && exists k :: 0 <= k < |users| && users[k].id == Parse(r.value.user_id) && users[k].forgot_password_token == Text.Trim(raw)
  {
    var value := Text.Trim(raw);
    if value == "" then Failure(Unauthorized(ForgotPasswordIsRequired))
    else
      match env.codec.verify(env.cfg.forgotPasswordSecret, value, now)
      case Failure(e) => Failure(AsMsg(CatchJwt(e)))
      case Success(decoded) =>
        match Parse(decoded.user_id)
        // a BSONError is not a JsonWebTokenError: rethrown, so only its message is recorded
        case None => Failure(AsMsg(Rethrown(INVALID_ID_MESSAGE)))
        case Some(id) =>
          match FindUserById(users, id)
          case None => Failure(Unauthorized(UserNotFound))
          case Some(k) =>
            if users[k].forgot_password_token != value then Failure(Unauthorized(ForgotPasswordTokenInvalid))
            else Success(decoded)
  }

  /** The custom check of `loginValidator`: a user with that email and hashed password, and Verified. */
  function LoginValidator(env: Env, users: seq<User>, email: string, password: string): (r: Result<User, Msg>)
    ensures r.Success? ==> r.value in users && r.value.email == email && r.value.password == env.hash(password) && r.value.verify == Verified
    ensures r.Failure? ==> r.error == Text(EmailOrPasswordIncorrect) || r.error == Text(EmailNotVerified)
  {
    match FindUserByCredentials(users, email, env.hash(password))
    case None => Failure(Text(EmailOrPasswordIncorrect))
    case Some(k) =>
      if users[k].verify != Verified then Failure(Text(EmailNotVerified)) else Success(users[k])
  }

  /** The custom checks of `registerValidator`, as the mapped errors they leave (email first). */
  function RegisterValidator(users: seq<User>, body: RegisterReqBody): (mapped: seq<FieldError>)
    ensures mapped == [] <==> FindUserByEmail(users, body.email).None? && body.confirm_password == body.password
    ensures |mapped| <= 2
    ensures forall i :: 0 <= i < |mapped| ==> mapped[i].field == "email" || mapped[i].field == "confirm_password"
  {
    (if FindUserByEmail(users, body.email).Some? then [FieldError("email", WithStatus(ErrorsWithStatus(EmailAlreadyExists, CONFLICT)))] else [])
    + (if body.confirm_password != body.password then [FieldError("confirm_password", Text(ConfirmPasswordNotMatch))] else [])
  }

  /**
   * `accessTokenValidator`: the token is the second space-separated word of
   * the trimmed `Authorization` header; only its signature is checked.
   */
  function AccessTokenValidator(env: Env, authorization: Option<string>, now: int): (r: Result<Payload, Msg>)
    ensures var header := Text.Trim(if authorization.Some? then authorization.value else "");
      r.Success? ==> Text.SecondField(header).Some? && env.codec.verify(env.cfg.accessSecret, Text.SecondField(header).value, now) == Success(r.value)
  {
    var header := Text.Trim(if authorization.Some? then authorization.value else "");
    match VerifyAccessToken(env.codec, env.cfg, Text.SecondField(header), true, now)
    case Success(AttachedToRequest(p)) => Success(p)
    case Success(Returned(p)) => Success(p)
    case Failure(t) => Failure(AsMsg(t))
  }

  /** `verifiedUserValidator`. */
  function VerifiedUserValidator(decode_authorization: Payload): (call: Validation.NextCall)
    ensures call == Validation.NextNone <==> decode_authorization.verify == Verified
    ensures call != Validation.NextNone ==> call == Validation.NextError(ErrorsWithStatus(VerifyUserInvalid, FORBIDDEN))
  {
    if decode_authorization.verify != Verified then Validation.NextError(ErrorsWithStatus(VerifyUserInvalid, FORBIDDEN))
    else Validation.NextNone
  }

  // ---- what the validators accept ----

  /** A refresh token is accepted iff it is non-empty, verifies under the refresh secret and is stored. */
  lemma RefreshTokenAcceptedIff(env: Env, rs: seq<RefreshRecord>, raw: string, now: int)
    ensures var value := Text.Trim(raw);
      RefreshTokenValidator(env, rs, raw, now).Success? <==>
        value != "" && env.codec.verify(env.cfg.refreshSecret, value, now).Success? && HasToken(rs, value)
    ensures var value := Text.Trim(raw);
      RefreshTokenValidator(env, rs, raw, now).Success? ==>
        RefreshTokenValidator(env, rs, raw, now).value == env.codec.verify(env.cfg.refreshSecret, value, now).value
    ensures var value := Text.Trim(raw);
      value != "" && env.codec.verify(env.cfg.refreshSecret, value, now).Success? && !HasToken(rs, value) ==>
        RefreshTokenValidator(env, rs, raw, now) == Failure(Unauthorized(RefreshTokenIsNotExists))
  {
  }

  /** Every refresh-token failure is a 401, except a non-JWT library error, which is rethrown. */
  lemma RefreshTokenFailuresAre401(env: Env, rs: seq<RefreshRecord>, raw: string, now: int)
    requires RefreshTokenValidator(env, rs, raw, now).Failure?
    requires env.codec.verify(env.cfg.refreshSecret, Text.Trim(raw), now).Failure? ==>
             env.codec.verify(env.cfg.refreshSecret, Text.Trim(raw), now).error.IsJsonWebTokenError()
    ensures RefreshTokenValidator(env, rs, raw, now).error.WithStatus?
    ensures RefreshTokenValidator(env, rs, raw, now).error.error.status == UNAUTHORIZED
  {
  }

  /** An email-verify token is accepted iff it is non-empty, decodes, names a user and equals that user's stored token. */
  lemma VerifyEmailTokenAcceptedIff(env: Env, users: seq<User>, raw: string, now: int)
    ensures var value := Text.Trim(raw);
      var d := env.codec.verify(env.cfg.emailVerifySecret, value, now);
      VerifyEmailTokenValidator(env, users, raw, now).Success? <==>
        && value != ""
        && d.Success?
        && Parse(d.value.user_id).Some?
        && FindUserById(users, Parse(d.value.user_id).value).Some?
        && users[FindUserById(users, Parse(d.value.user_id).value).value].email_verify_token == value
  {
  }

  /** Every email-verify failure is a 401, and the "already verified" branch is never taken. */
  lemma VerifyEmailTokenFailuresAre401(env: Env, users: seq<User>, raw: string, now: int)
    requires VerifyEmailTokenValidator(env, users, raw, now).Failure?
    ensures VerifyEmailTokenValidator(env, users, raw, now).error.WithStatus?
    ensures VerifyEmailTokenValidator(env, users, raw, now).error.error.status == UNAUTHORIZED
    ensures VerifyEmailTokenValidator(env, users, raw, now) != Failure(RewrapAs401(EmailIsVerified))
  {
    var value := Text.Trim(raw);
    if value != "" {
      var d := env.codec.verify(env.cfg.emailVerifySecret, value, now);
      if d.Success? && Parse(d.value.user_id).Some? {
        var f := FindUserById(users, Parse(d.value.user_id).value);
        assert f.Some? ==> VerifyEmailTokenValidator(env, users, raw, now) != Failure(RewrapAs401(EmailIsVerified));
      }
    }
  }

  /** A forgot-password token is accepted iff it is non-empty, decodes, names a user and equals that user's stored token. */
  lemma ForgotPasswordTokenAcceptedIff(env: Env, users: seq<User>, raw: string, now: int)
    ensures var value := Text.Trim(raw);
      var d := env.codec.verify(env.cfg.forgotPasswordSecret, value, now);
      ForgotPasswordTokenValidator(env, users, raw, now).Success? <==>
        && value != ""
        && d.Success?
        && Parse(d.value.user_id).Some?
        && FindUserById(users, Parse(d.value.user_id).value).Some?
        && users[FindUserById(users, Parse(d.value.user_id).value).value].forgot_password_token == value
  {
  }

  /** With unique emails, login passes iff a Verified user has that email and that password hash. */
  lemma LoginAcceptedIff(env: Env, users: seq<User>, email: string, password: string)
    requires UniqueEmails(users)
    ensures LoginValidator(env, users, email, password).Success? <==>
      exists k :: 0 <= k < |users| && users[k].email == email && users[k].password == env.hash(password) && users[k].verify == Verified
    ensures LoginValidator(env, users, email, password).Success? ==>
      var u := LoginValidator(env, users, email, password).value;
      u.email == email && u.password == env.hash(password) && u.verify == Verified
  {
    if exists k :: 0 <= k < |users| && users[k].email == email && users[k].password == env.hash(password) && users[k].verify == Verified {
      var k :| 0 <= k < |users| && users[k].email == email && users[k].password == env.hash(password) && users[k].verify == Verified;
      var f := FindUserByCredentials(users, email, env.hash(password));
      assert f.Some?;
      assert f.value == k;
    }
  }

  /** A matching account that is Unverified or Banned is turned away before any token is issued. */
  lemma LoginRejectsUnverifiedAndBanned(env: Env, users: seq<User>, k: nat, password: string)
    requires UniqueEmails(users) && k < |users|
    requires users[k].password == env.hash(password) && users[k].verify != Verified
    ensures LoginValidator(env, users, users[k].email, password) == Failure(Text(EmailNotVerified))
  {
    var f := FindUserByCredentials(users, users[k].email, env.hash(password));
    assert f.Some?;
    assert f.value == k;
  }

  /** Registration: a taken email is forwarded as 409; otherwise a password mismatch becomes a 422 entity error. */
  lemma RegisterDecision(users: seq<User>, body: RegisterReqBody)
    ensures FindUserByEmail(users, body.email).Some? ==>
      Validation.Decide(RegisterValidator(users, body)) == Validation.NextError(ErrorsWithStatus(EmailAlreadyExists, CONFLICT))
    ensures FindUserByEmail(users, body.email).None? && body.confirm_password != body.password ==>
      Validation.Decide(RegisterValidator(users, body)).NextEntity? &&
      Validation.Decide(RegisterValidator(users, body)).entity.status == UNPROCESSABLE_ENTITY
    ensures Validation.Decide(RegisterValidator(users, body)) == Validation.NextNone <==>
      FindUserByEmail(users, body.email).None? && body.confirm_password == body.password
  {
    var m := RegisterValidator(users, body);
    if FindUserByEmail(users, body.email).Some? {
      var f := FieldError("email", WithStatus(ErrorsWithStatus(EmailAlreadyExists, CONFLICT)));
      Validation.DecideForwardableFirst(f, m[1..]);
      assert m == [f] + m[1..];
    } else if body.confirm_password != body.password {
      Validation.DecideOneField("confirm_password", Text(ConfirmPasswordNotMatch));
    }
  }

  /** `Authorization: Bearer <t>` yields whatever verifying `t` under the access secret yields. */
  lemma AccessTokenFromBearer(env: Env, t: string, now: int)
    requires t != "" && Text.NoWhitespace(t)
    ensures var d := env.codec.verify(env.cfg.accessSecret, t, now);
      AccessTokenValidator(env, Some("Bearer " + t), now) ==
        if d.Success? then Success(d.value) else Failure(AsMsg(CatchJwt(d.error)))
  {
    var h := "Bearer " + t;
    assert h == "Bearer" + " " + t;
    assert !Text.IsWhitespace(h[0]) && h[|h| - 1] == t[|t| - 1];
    assert Text.TrimStart(h) == h;
    assert Text.TrimEnd(h) == h;
    assert Text.Trim(h) == h;
    assert Text.IsWhitespace(' ');
    assert ' ' !in t;
    Text.SecondFieldOfJoin("Bearer", t);
  }

  /** A header without a second word is reported as a missing token (401), before any verification. */
  lemma AccessTokenMissing(env: Env, authorization: Option<string>, now: int)
    requires var h := Text.Trim(if authorization.Some? then authorization.value else "");
      Text.SecondField(h).None? || Text.SecondField(h) == Some("")
    ensures AccessTokenValidator(env, authorization, now) == Failure(WithStatus(ErrorsWithStatus(AccessTokenIsRequired, UNAUTHORIZED)))
  {
  }
}
