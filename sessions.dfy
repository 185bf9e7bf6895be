/**
 * The refresh-token session lifecycle and the account-token state machine,
 * across the service updates and the validators that guard them. Each lemma
 * takes the store a service method leaves behind (as its `ensures` describe
 * it) and says what the next request's validator decides.
 */
module Sessions {
  import opened Wrappers
  import opened Enums
  import opened Errors
  import opened Jwt
  import opened ObjectIds
  import opened UsersSchema
  import opened Collections
  import opened UserService
  import opened UserMiddleware
  import Validation
  import Text

  // ---- refresh tokens ----

  /**
   * A refresh token that register, login, verify-email or refresh has just
   * signed and stored is accepted until its `exp`, and yields its claims.
   */
  lemma IssuedRefreshTokenAccepted(env: Env, rs: seq<RefreshRecord>, id: ObjectId, user_id: string,
                                   verify: UserVerifyStatus, exp: Option<int>, now: int, iat: int, e: int, later: int)
    requires Sound(env.codec)
    requires later < RefreshClaims(env.cfg, user_id, verify, exp, now).exp
    ensures var rt := SignRefreshToken(env, user_id, verify, exp, now);
      RefreshTokenValidator(env, rs + [RefreshRecord(id, rt, iat, e)], rt, later) == Success(RefreshClaims(env.cfg, user_id, verify, exp, now))
  {
    var rt := SignRefreshToken(env, user_id, verify, exp, now);
    SignedIsTrimmed(env.codec, env.cfg.refreshSecret, RefreshClaims(env.cfg, user_id, verify, exp, now), RefreshOrder(exp));
    InsertCount(rs, RefreshRecord(id, rt, iat, e), rt);
  }

  /** Once its `exp` has passed, a refresh token is refused as expired (401), whatever the store holds. */
  lemma ExpiredRefreshTokenRefused(env: Env, rs: seq<RefreshRecord>, user_id: string,
                                   verify: UserVerifyStatus, exp: Option<int>, now: int, later: int)
    requires Sound(env.codec)
    requires later >= RefreshClaims(env.cfg, user_id, verify, exp, now).exp
    ensures RefreshTokenValidator(env, rs, SignRefreshToken(env, user_id, verify, exp, now), later)
         == Failure(Unauthorized(Capitalized(ErrorText("jwt expired"))))
  {
    SignedIsTrimmed(env.codec, env.cfg.refreshSecret, RefreshClaims(env.cfg, user_id, verify, exp, now), RefreshOrder(exp));
  }

  /** Logout revokes the presented token when the store held at most one copy of it. */
  lemma LogoutRevokes(env: Env, rs: seq<RefreshRecord>, raw: string, later: int)
    requires CountToken(rs, Text.Trim(raw)) <= 1
    ensures !HasToken(DeleteOne(rs, Text.Trim(raw)), Text.Trim(raw))
    ensures RefreshTokenValidator(env, DeleteOne(rs, Text.Trim(raw)), raw, later).Failure?
  {
    var t := Text.Trim(raw);
    DeleteOneCount(rs, t, t);
    HasTokenIffCounted(DeleteOne(rs, t), t);
  }

  /** A token stored twice survives one logout: the validator decides exactly as before. */
  lemma DuplicateSurvivesLogout(env: Env, rs: seq<RefreshRecord>, raw: string, later: int)
    requires CountToken(rs, Text.Trim(raw)) >= 2
    ensures HasToken(DeleteOne(rs, Text.Trim(raw)), Text.Trim(raw))
    ensures RefreshTokenValidator(env, DeleteOne(rs, Text.Trim(raw)), raw, later) == RefreshTokenValidator(env, rs, raw, later)
  {
    var t := Text.Trim(raw);
    DeleteOneCount(rs, t, t);
    HasTokenIffCounted(DeleteOne(rs, t), t);
    HasTokenIffCounted(rs, t);
  }

  /**
   * Rotation: with at most one copy of the old token stored and a new token
   * that differs from it, the old token is refused afterwards and the new one
   * is present.
   */
  lemma RotationRevokesOld(env: Env, rs: seq<RefreshRecord>, raw: string, rec: RefreshRecord, later: int)
    requires CountToken(rs, Text.Trim(raw)) <= 1
    requires rec.token != Text.Trim(raw)
    ensures !HasToken(DeleteOne(rs, Text.Trim(raw)) + [rec], Text.Trim(raw))
    ensures HasToken(DeleteOne(rs, Text.Trim(raw)) + [rec], rec.token)
    ensures RefreshTokenValidator(env, DeleteOne(rs, Text.Trim(raw)) + [rec], raw, later).Failure?
  {
    var t := Text.Trim(raw);
    DeleteOneCount(rs, t, t);
    HasTokenIffCounted(DeleteOne(rs, t), t);
    InsertCount(DeleteOne(rs, t), rec, t);
    InsertCount(DeleteOne(rs, t), rec, rec.token);
  }

  /**
   * When rotation hands back the token it was given: only for a token that
   * was itself rotated (its `exp` sits in the payload, ahead of `iat`) and
   * only in the second it was signed. A token from register, login or
   * verify-email is signed with `expiresIn`, so its claims come in the other
   * order and its rotation is always a new string.
   */
  lemma RotationIssuesNewToken(env: Env, user_id: string, verify: UserVerifyStatus, exp: Option<int>, now: int, t: int)
    requires SignInjective(env.codec)
    requires RefreshClaims(env.cfg, user_id, verify, exp, now).exp != 0
    ensures var pinned := Some(RefreshClaims(env.cfg, user_id, verify, exp, now).exp);
      (SignRefreshToken(env, user_id, verify, pinned, t) == SignRefreshToken(env, user_id, verify, exp, now)) <==> (Truthy(exp) && t == now)
  {
    var pinned := Some(RefreshClaims(env.cfg, user_id, verify, exp, now).exp);
    if SignRefreshToken(env, user_id, verify, pinned, t) == SignRefreshToken(env, user_id, verify, exp, now) {
      assert RefreshOrder(pinned) == RefreshOrder(exp);
      assert RefreshClaims(env.cfg, user_id, verify, pinned, t) == RefreshClaims(env.cfg, user_id, verify, exp, now);
    }
  }

  /**
   * The first rotation of a token from register, login or verify-email, at
   * any instant, revokes it when the store held at most one copy: presented
   * again, it is refused, and before its `exp` with REFRESH_TOKEN_IS_NOT_EXISTS.
   */
  lemma FirstRotationRevokes(env: Env, rs: seq<RefreshRecord>, id: ObjectId, user_id: string, verify: UserVerifyStatus,
                             now: int, t: int, iat: int, e: int, later: int)
    requires Sound(env.codec) && SignInjective(env.codec)
    requires now + env.cfg.refreshExpiresIn != 0
    requires CountToken(rs, SignRefreshToken(env, user_id, verify, None, now)) <= 1
    ensures var first := SignRefreshToken(env, user_id, verify, None, now);
      var second := SignRefreshToken(env, user_id, verify, Some(now + env.cfg.refreshExpiresIn), t);
      var after := DeleteOne(rs, first) + [RefreshRecord(id, second, iat, e)];
      && second != first
      && RefreshTokenValidator(env, after, first, later).Failure?
      && (later < now + env.cfg.refreshExpiresIn ==>
            RefreshTokenValidator(env, after, first, later) == Failure(Unauthorized(RefreshTokenIsNotExists)))
  {
    var first := SignRefreshToken(env, user_id, verify, None, now);
    var second := SignRefreshToken(env, user_id, verify, Some(now + env.cfg.refreshExpiresIn), t);
    RotationIssuesNewToken(env, user_id, verify, None, now, t);
    SignedIsTrimmed(env.codec, env.cfg.refreshSecret, RefreshClaims(env.cfg, user_id, verify, None, now), IatThenExp);
    RotationRevokesOld(env, rs, first, RefreshRecord(id, second, iat, e), later);
  }

  /**
   * The refresh token's payload after the session is rotated at each instant
   * of `times`, the controller passing the decoded `exp` every time; None once
   * a rotation's decode fails.
   */
  function Rotations(env: Env, p: Payload, times: seq<int>): Option<Payload>
    decreases |times|
  {
    if times == [] then Some(p)
    else
      match DecodeRefreshToken(env, SignRefreshToken(env, p.user_id, p.verify, Some(p.exp), times[0]), times[0])
      case Failure(_) => None
      case Success(d) => Rotations(env, d, times[1..])
  }

  /**
   * Rotation never extends a session: every rotated token keeps the owner,
   * the status and the `exp` of the token the session started with, and a
   * chain of rotations before that `exp` always succeeds.
   */
  lemma {:induction false} RotationNeverExtends(env: Env, p: Payload, times: seq<int>)
    requires Sound(env.codec) && p.exp != 0
    decreases |times|
    ensures (forall i :: 0 <= i < |times| ==> times[i] < p.exp) ==> Rotations(env, p, times).Some?
    ensures Rotations(env, p, times).Some? ==>
      var q := Rotations(env, p, times).value;
      q.exp == p.exp && q.user_id == p.user_id && q.verify == p.verify
  {
    if times != [] {
      var claims := RefreshClaims(env.cfg, p.user_id, p.verify, Some(p.exp), times[0]);
      if times[0] < p.exp {
        assert DecodeRefreshToken(env, SignRefreshToken(env, p.user_id, p.verify, Some(p.exp), times[0]), times[0]) == Success(claims);
        RotationNeverExtends(env, claims, times[1..]);
        if forall i :: 0 <= i < |times| ==> times[i] < p.exp {
          assert forall i :: 0 <= i < |times[1..]| ==> times[1..][i] == times[i + 1];
        }
      } else {
        assert DecodeRefreshToken(env, SignRefreshToken(env, p.user_id, p.verify, Some(p.exp), times[0]), times[0]) == Failure(TokenExpired);
      }
    }
  }

  /** A token of another kind never passes as a refresh token (a 401 for the wrong signature). */
  lemma AccessTokenIsNotARefreshToken(env: Env, rs: seq<RefreshRecord>, user_id: string, verify: UserVerifyStatus, now: int, later: int)
    requires Sound(env.codec) && DistinctSecrets(env.cfg)
    ensures var r := RefreshTokenValidator(env, rs, SignAccessToken(env, user_id, verify, now), later);
      r.Failure? && r.error.WithStatus? && r.error.error.status == UNAUTHORIZED
  {
    SignedIsTrimmed(env.codec, env.cfg.accessSecret, AccessClaims(env.cfg, user_id, verify, now), IatThenExp);
  }

  // ---- access tokens ----

  /**
   * A signed access token in `Authorization: Bearer <token>` authenticates
   * until its `exp`, and the verified-user check passes iff it was signed
   * with status Verified.
   */
  lemma AccessTokenAuthenticates(env: Env, user_id: string, verify: UserVerifyStatus, now: int, later: int)
    requires Sound(env.codec)
    requires later < now + env.cfg.accessExpiresIn
    ensures var at := SignAccessToken(env, user_id, verify, now);
      AccessTokenValidator(env, Some("Bearer " + at), later) == Success(AccessClaims(env.cfg, user_id, verify, now))
    ensures VerifiedUserValidator(AccessClaims(env.cfg, user_id, verify, now)) == Validation.NextNone <==> verify == Verified
  {
    var at := SignAccessToken(env, user_id, verify, now);
    AccessTokenFromBearer(env, at, later);
  }

  /** A refresh token never passes as an access token. */
  lemma RefreshTokenIsNotAnAccessToken(env: Env, user_id: string, verify: UserVerifyStatus, exp: Option<int>, now: int, later: int)
    requires Sound(env.codec) && DistinctSecrets(env.cfg)
    ensures var rt := SignRefreshToken(env, user_id, verify, exp, now);
      var r := AccessTokenValidator(env, Some("Bearer " + rt), later);
      r.Failure? && r.error.WithStatus? && r.error.error.status == UNAUTHORIZED
  {
    var rt := SignRefreshToken(env, user_id, verify, exp, now);
    AccessTokenFromBearer(env, rt, later);
  }

  // ---- the email-verify token: "" -> token -> "" ----

  /** The token mailed at registration is accepted for the new user until it expires. */
  lemma MailedEmailVerifyTokenAccepted(env: Env, users: seq<User>, payload: RegisterReqBody, id: ObjectId, now: int, later: int)
    requires Sound(env.codec) && Canonical(id)
    requires FindUserById(users, id).None?
    requires later < now + env.cfg.emailVerifyExpiresIn
    ensures var evt := SignEmailVerifyToken(env, id.ToString(), Unverified, now);
      VerifyEmailTokenValidator(env, users + [RegisteredUser(env, payload, id, evt, now)], evt, later)
        == Success(EmailVerifyClaims(env.cfg, id.ToString(), Unverified, now))
  {
    var evt := SignEmailVerifyToken(env, id.ToString(), Unverified, now);
    var u := RegisteredUser(env, payload, id, evt, now);
    var claims := EmailVerifyClaims(env.cfg, id.ToString(), Unverified, now);
    SignedIsTrimmed(env.codec, env.cfg.emailVerifySecret, claims, IatThenExp);
    assert env.codec.verify(env.cfg.emailVerifySecret, evt, later) == Success(claims);
    ParseToString(id);
    assert FindUserById(users + [u], id) == Some(|users|) by {
      assert (users + [u])[|users|].id == Some(id);
      assert forall j :: 0 <= j < |users| ==> (users + [u])[j] == users[j];
    }
    assert (users + [u])[|users|].email_verify_token == evt != "";
  }

  /** After verify-email has consumed it, no token naming that user is accepted any more. */
  lemma EmailVerifyTokenSingleUse(env: Env, users: seq<User>, id: ObjectId, raw: string, now: int, later: int)
    requires FindUserById(users, id).Some?
    requires var d := env.codec.verify(env.cfg.emailVerifySecret, Text.Trim(raw), later);
      d.Success? ==> Parse(d.value.user_id) == Some(id)
    ensures VerifyEmailTokenValidator(env, ConsumeEmailVerify(users, id, now), raw, later).Failure?
  {
    FindUserByIdSameKeys(users, ConsumeEmailVerify(users, id, now), id);
  }

  // ---- the forgot-password token: "" -> token -> token' -> "" ----

  /** The token just mailed by forgot-password is accepted for its user until it expires. */
  lemma MailedForgotPasswordTokenAccepted(env: Env, users: seq<User>, id: ObjectId, verify: UserVerifyStatus, now: int, later: int)
    requires Sound(env.codec) && Canonical(id)
    requires FindUserById(users, id).Some?
    requires later < now + env.cfg.forgotPasswordExpiresIn
    ensures var t := SignForgotPasswordToken(env, id.ToString(), verify, now);
      ForgotPasswordTokenValidator(env, SetForgotPasswordToken(users, id, t, now), t, later)
        == Success(ForgotPasswordClaims(env.cfg, id.ToString(), verify, now))
  {
    var t := SignForgotPasswordToken(env, id.ToString(), verify, now);
    SignedIsTrimmed(env.codec, env.cfg.forgotPasswordSecret, ForgotPasswordClaims(env.cfg, id.ToString(), verify, now), IatThenExp);
    ParseToString(id);
    FindUserByIdSameKeys(users, SetForgotPasswordToken(users, id, t, now), id);
  }

  /** Issuing a new forgot-password token invalidates every different earlier one for that user. */
  lemma EarlierForgotPasswordTokenRefused(env: Env, users: seq<User>, id: ObjectId, raw: string, latest: string, now: int, later: int)
    requires FindUserById(users, id).Some?
    requires Text.Trim(raw) != latest
    requires var d := env.codec.verify(env.cfg.forgotPasswordSecret, Text.Trim(raw), later);
      d.Success? && Parse(d.value.user_id) == Some(id)
    ensures Text.Trim(raw) != "" ==>
      ForgotPasswordTokenValidator(env, SetForgotPasswordToken(users, id, latest, now), raw, later)
        == Failure(Unauthorized(ForgotPasswordTokenInvalid))
  {
    FindUserByIdSameKeys(users, SetForgotPasswordToken(users, id, latest, now), id);
  }

  /** After reset-password, no token naming that user is accepted any more. */
  lemma ResetConsumesForgotPasswordToken(env: Env, users: seq<User>, id: ObjectId, raw: string, hash: string, now: int, later: int)
    requires FindUserById(users, id).Some?
    requires var d := env.codec.verify(env.cfg.forgotPasswordSecret, Text.Trim(raw), later);
      d.Success? ==> Parse(d.value.user_id) == Some(id)
    ensures ForgotPasswordTokenValidator(env, ResetPasswordUpdate(users, id, hash, now), raw, later).Failure?
  {
    FindUserByIdSameKeys(users, ResetPasswordUpdate(users, id, hash, now), id);
  }

  /** After reset-password, the new password logs in (if the account is Verified) and a different old one does not. */
  lemma ResetPasswordChangesLogin(env: Env, users: seq<User>, id: ObjectId, password: string, old_password: string, now: int)
    requires UniqueIds(users) && UniqueEmails(users)
    requires FindUserById(users, id).Some?
    requires env.hash(old_password) != env.hash(password)
    ensures var k := FindUserById(users, id).value;
      var after := ResetPasswordUpdate(users, id, env.hash(password), now);
      && (LoginValidator(env, after, users[k].email, password).Success? <==> users[k].verify == Verified)
      && LoginValidator(env, after, users[k].email, old_password) == Failure(Text(EmailOrPasswordIncorrect))
  {
    var k := FindUserById(users, id).value;
    var after := ResetPasswordUpdate(users, id, env.hash(password), now);
    UniqueKeysKept(users, after);
    LoginAcceptedIff(env, after, users[k].email, password);
    assert after[k].email == users[k].email && after[k].password == env.hash(password);
  }
}
