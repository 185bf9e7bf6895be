/**
 * `services/user.service.ts`: issuing, rotating and revoking refresh tokens and
 * the one-shot account tokens, over the two collections. Signing, hashing and
 * the clock are parameters.
 */
module UserService {
  import opened Wrappers
  import opened Enums
  import opened Errors
  import opened Jwt
  import opened ObjectIds
  import opened UsersSchema
  import opened Collections

  /** The collaborators: the token codec, the secrets and lifetimes, and `hashPassword`. */
  datatype Env = Env(codec: Codec, cfg: Config, hash: string -> string)

  /** `RegisterReqBody`. */
  datatype RegisterReqBody = RegisterReqBody(email: string, password: string, confirm_password: string)

  datatype TokenPair = TokenPair(access_token: string, refresh_token: string)

  /** `{ message, data: { ...tokens } }`. */
  datatype Reply = Reply(message: Message, data: TokenPair)

  /** `if (exp)`: a present, non-zero expiry. */
  predicate Truthy(exp: Option<int>) {
    exp.Some? && exp.value != 0
  }

  function AccessClaims(cfg: Config, user_id: string, verify: UserVerifyStatus, now: int): Payload {
    Payload(user_id, AccessToken, verify, now, now + cfg.accessExpiresIn)
  }

  /** `signRefreshToken`'s claims: a truthy `exp` is kept as it is, otherwise a full lifetime from now. */
  function RefreshClaims(cfg: Config, user_id: string, verify: UserVerifyStatus, exp: Option<int>, now: int): (p: Payload)
    ensures p.user_id == user_id && p.token_type == RefreshToken && p.verify == verify && p.iat == now
    ensures Truthy(exp) ==> p.exp == exp.value
    ensures !Truthy(exp) ==> p.exp == now + cfg.refreshExpiresIn
  {
    if Truthy(exp) then Payload(user_id, RefreshToken, verify, now, exp.value)
    else Payload(user_id, RefreshToken, verify, now, now + cfg.refreshExpiresIn)
  }

  function EmailVerifyClaims(cfg: Config, user_id: string, verify: UserVerifyStatus, now: int): Payload {
    Payload(user_id, EmailVerifyToken, verify, now, now + cfg.emailVerifyExpiresIn)
  }

  function ForgotPasswordClaims(cfg: Config, user_id: string, verify: UserVerifyStatus, now: int): Payload {
    Payload(user_id, ForgotPasswordToken, verify, now, now + cfg.forgotPasswordExpiresIn)
  }

  function SignAccessToken(env: Env, user_id: string, verify: UserVerifyStatus, now: int): string {
    env.codec.sign(env.cfg.accessSecret, AccessClaims(env.cfg, user_id, verify, now), IatThenExp)
  }

  /** The pinned branch passes `exp` in the payload; the other uses the `expiresIn` option. */
  function RefreshOrder(exp: Option<int>): (o: ClaimOrder)
    ensures o == ExpThenIat <==> Truthy(exp)
  {
    if Truthy(exp) then ExpThenIat else IatThenExp
  }

  function SignRefreshToken(env: Env, user_id: string, verify: UserVerifyStatus, exp: Option<int>, now: int): (t: string)
    ensures Sound(env.codec) ==> TokenShaped(t)
    ensures Sound(env.codec) && now < RefreshClaims(env.cfg, user_id, verify, exp, now).exp ==>
      DecodeRefreshToken(env, t, now) == Success(RefreshClaims(env.cfg, user_id, verify, exp, now))
  {
    env.codec.sign(env.cfg.refreshSecret, RefreshClaims(env.cfg, user_id, verify, exp, now), RefreshOrder(exp))
  }

  function SignEmailVerifyToken(env: Env, user_id: string, verify: UserVerifyStatus, now: int): string {
    env.codec.sign(env.cfg.emailVerifySecret, EmailVerifyClaims(env.cfg, user_id, verify, now), IatThenExp)
  }

  function SignForgotPasswordToken(env: Env, user_id: string, verify: UserVerifyStatus, now: int): string {
    env.codec.sign(env.cfg.forgotPasswordSecret, ForgotPasswordClaims(env.cfg, user_id, verify, now), IatThenExp)
  }

  /** `decodeRefreshToken`: verification under the refresh secret. */
  function DecodeRefreshToken(env: Env, token: string, now: int): Result<Payload, JwtError> {
    env.codec.verify(env.cfg.refreshSecret, token, now)
  }

  /** The user document `register` inserts. */
  function RegisteredUser(env: Env, payload: RegisterReqBody, id: ObjectId, email_verify_token: string, now: int): User {
    NewUser(UserType(Some(id), payload.email, "username" + id.ToString(), env.hash(payload.password),
                     Some(Unverified), None, None, Some(email_verify_token), Some("")), now)
  }

  /** `verifyEmail`'s update: `email_verify_token := ""`, `verify := Verified`, `updated_at := now`. */
  function ConsumeEmailVerify(users: seq<User>, id: ObjectId, now: int): (r: seq<User>)
    ensures SameKeys(users, r)
    ensures forall j :: 0 <= j < |users| && FindUserById(users, id) != Some(j) ==> r[j] == users[j]
    ensures FindUserById(users, id).Some? ==>
      var k := FindUserById(users, id).value;
      r[k] == users[k].(email_verify_token := "", verify := Verified, updated_at := Some(now))
  {
    match FindUserById(users, id)
    case None => users
    case Some(k) => users[k := users[k].(email_verify_token := "", verify := Verified, updated_at := Some(now))]
  }

  /** `forgotPassword`'s update: the new token overwrites `forgot_password_token`. */
  function SetForgotPasswordToken(users: seq<User>, id: ObjectId, token: string, now: int): (r: seq<User>)
    ensures SameKeys(users, r)
    ensures forall j :: 0 <= j < |users| && FindUserById(users, id) != Some(j) ==> r[j] == users[j]
    ensures FindUserById(users, id).Some? ==>
      var k := FindUserById(users, id).value;
      r[k] == users[k].(forgot_password_token := token, updated_at := Some(now))
  {
    match FindUserById(users, id)
    case None => users
    case Some(k) => users[k := users[k].(forgot_password_token := token, updated_at := Some(now))]
  }

  /** `resetPassword`'s single update: the token is cleared and the password replaced together. */
  function ResetPasswordUpdate(users: seq<User>, id: ObjectId, passwordHash: string, now: int): (r: seq<User>)
    ensures SameKeys(users, r)
    ensures forall j :: 0 <= j < |users| && FindUserById(users, id) != Some(j) ==> r[j] == users[j]
    ensures FindUserById(users, id).Some? ==>
      var k := FindUserById(users, id).value;
      r[k] == users[k].(forgot_password_token := "", password := passwordHash, updated_at := Some(now))
  {
    match FindUserById(users, id)
    case None => users
    case Some(k) => users[k := users[k].(forgot_password_token := "", password := passwordHash, updated_at := Some(now))]
  }

  /** The unique indexes survive an update that keeps every `_id` and `email`. */
  lemma UniqueKeysKept(a: seq<User>, b: seq<User>)
    requires SameKeys(a, b) && UniqueIds(a) && UniqueEmails(a)
    ensures UniqueIds(b) && UniqueEmails(b)
  {
    forall i, j | 0 <= i < j < |b| ensures b[i].id != b[j].id && b[i].email != b[j].email {
      assert a[i].id != a[j].id && a[i].email != a[j].email;
    }
  }

  class UserService {
    var users: seq<User>
    var refreshTokens: seq<RefreshRecord>
    const env: Env

    /** The unique indexes on `_id` and `email`. */
    ghost predicate Valid()
      reads this
    {
      UniqueIds(users) && UniqueEmails(users)
    }

    constructor (env: Env)
      ensures Valid() && this.env == env
      ensures users == [] && refreshTokens == []
    {
      this.env := env;
      users := [];
      refreshTokens := [];
    }

    /** `checkEmailExist`. */
    function CheckEmailExist(email: string): (found: bool)
      reads this
      ensures found <==> exists k :: 0 <= k < |users| && users[k].email == email
    {
      FindUserByEmail(users, email).Some?
    }

    /**
     * `register`: signs an access, a refresh and an email-verify token for the
     * new id, decodes the refresh token, then inserts the user and one refresh
     * record. The verify mail receives the stored `email_verify_token`.
     */
    method Register(payload: RegisterReqBody, user_id: ObjectId, now: int) returns (r: Result<TokenPair, JwtError>)
      requires Valid() && Canonical(user_id)
      requires !CheckEmailExist(payload.email)
      requires FindUserById(users, user_id).None?
      modifies this
      ensures Valid()
      ensures
        var uid := user_id.ToString();
        var rt := SignRefreshToken(env, uid, Unverified, None, now);
        match DecodeRefreshToken(env, rt, now)
        case Failure(e) => r == Failure(e) && users == old(users) && refreshTokens == old(refreshTokens)
        case Success(d) =>
          && r == Success(TokenPair(SignAccessToken(env, uid, Unverified, now), rt))
          && users == old(users) + [RegisteredUser(env, payload, user_id, SignEmailVerifyToken(env, uid, Unverified, now), now)]
          && refreshTokens == old(refreshTokens) + [RefreshRecord(user_id, rt, d.iat, d.exp)]
    {
      var uid := user_id.ToString();
      var access_token := SignAccessToken(env, uid, Unverified, now);
      var refresh_token := SignRefreshToken(env, uid, Unverified, None, now);
      var email_verify_token := SignEmailVerifyToken(env, uid, Unverified, now);
      var decoded := DecodeRefreshToken(env, refresh_token, now);
      if decoded.Failure? {
        return Failure(decoded.error);
      }
      var user := RegisteredUser(env, payload, user_id, email_verify_token, now);
      users := users + [user];
      refreshTokens := refreshTokens + [RefreshRecord(user_id, refresh_token, decoded.value.iat, decoded.value.exp)];
      r := Success(TokenPair(access_token, refresh_token));
    }

    /** `login`: signs a pair for the authenticated user and inserts one refresh record; no user changes. */
    method Login(user_id: string, verify: UserVerifyStatus, now: int) returns (r: Result<TokenPair, JwtError>)
      requires Valid() && IsValid(user_id)
      modifies this
      ensures Valid() && users == old(users)
      ensures
        var rt := SignRefreshToken(env, user_id, verify, None, now);
        match DecodeRefreshToken(env, rt, now)
        case Failure(e) => r == Failure(e) && refreshTokens == old(refreshTokens)
        case Success(d) =>
          && r == Success(TokenPair(SignAccessToken(env, user_id, verify, now), rt))
          && refreshTokens == old(refreshTokens) + [RefreshRecord(Parse(user_id).value, rt, d.iat, d.exp)]
    {
      var access_token := SignAccessToken(env, user_id, verify, now);
      var refresh_token := SignRefreshToken(env, user_id, verify, None, now);
      var decoded := DecodeRefreshToken(env, refresh_token, now);
      if decoded.Failure? {
        return Failure(decoded.error);
      }
      refreshTokens := refreshTokens + [RefreshRecord(Parse(user_id).value, refresh_token, decoded.value.iat, decoded.value.exp)];
      r := Success(TokenPair(access_token, refresh_token));
    }

    /**
     * `refreshToken`: signs a new pair (the refresh token keeps a truthy `exp`)
     * and deletes one record of the old token; then decodes the new token and
     * inserts its record. A failed decode leaves the deletion in place.
     */
    method RefreshToken(user_id: string, verify: UserVerifyStatus, refresh_token: string, exp: Option<int>, now: int)
      returns (r: Result<Reply, JwtError>)
      requires Valid() && IsValid(user_id)
      modifies this
      ensures Valid() && users == old(users)
      ensures
        var nrt := SignRefreshToken(env, user_id, verify, exp, now);
        var kept := DeleteOne(old(refreshTokens), refresh_token);
        match DecodeRefreshToken(env, nrt, now)
        case Failure(e) => r == Failure(e) && refreshTokens == kept
        case Success(d) =>
          && r == Success(Reply(RefreshTokenSuccess, TokenPair(SignAccessToken(env, user_id, verify, now), nrt)))
          && refreshTokens == kept + [RefreshRecord(Parse(user_id).value, nrt, d.iat, d.exp)]
    {
      var new_access_token := SignAccessToken(env, user_id, verify, now);
      var new_refresh_token := SignRefreshToken(env, user_id, verify, exp, now);
      refreshTokens := DeleteOne(refreshTokens, refresh_token);
      var decoded := DecodeRefreshToken(env, new_refresh_token, now);
      if decoded.Failure? {
        return Failure(decoded.error);
      }
      refreshTokens := refreshTokens + [RefreshRecord(Parse(user_id).value, new_refresh_token, decoded.value.iat, decoded.value.exp)];
      r := Success(Reply(RefreshTokenSuccess, TokenPair(new_access_token, new_refresh_token)));
    }

    /** `logout`: deletes at most one record of the token and always reports success. */
    method Logout(refresh_token: string) returns (message: Message)
      requires Valid()
      modifies this
      ensures Valid() && users == old(users)
      ensures refreshTokens == DeleteOne(old(refreshTokens), refresh_token)
      ensures message == LogoutSuccess
    {
      refreshTokens := DeleteOne(refreshTokens, refresh_token);
      message := LogoutSuccess;
    }

    /**
     * `verifyEmail`: signs a pair with status Verified while clearing the
     * email-verify token and setting Verified, then inserts the refresh record.
     */
    method VerifyEmail(user_id: string, now: int) returns (r: Result<Reply, JwtError>)
      requires Valid() && IsValid(user_id)
      modifies this
      ensures Valid()
      ensures users == ConsumeEmailVerify(old(users), Parse(user_id).value, now)
      ensures
        var rt := SignRefreshToken(env, user_id, Verified, None, now);
        match DecodeRefreshToken(env, rt, now)
        case Failure(e) => r == Failure(e) && refreshTokens == old(refreshTokens)
        case Success(d) =>
          && r == Success(Reply(EmailVerifySuccess, TokenPair(SignAccessToken(env, user_id, Verified, now), rt)))
          && refreshTokens == old(refreshTokens) + [RefreshRecord(Parse(user_id).value, rt, d.iat, d.exp)]
    {
      var access_token := SignAccessToken(env, user_id, Verified, now);
      var refresh_token := SignRefreshToken(env, user_id, Verified, None, now);
      var updated := ConsumeEmailVerify(users, Parse(user_id).value, now);
      UniqueKeysKept(users, updated);
      users := updated;
      var decoded := DecodeRefreshToken(env, refresh_token, now);
      if decoded.Failure? {
        return Failure(decoded.error);
      }
      refreshTokens := refreshTokens + [RefreshRecord(Parse(user_id).value, refresh_token, decoded.value.iat, decoded.value.exp)];
      r := Success(Reply(EmailVerifySuccess, TokenPair(access_token, refresh_token)));
    }

    /** `forgotPassword`: stores a freshly signed forgot-password token and mails it. */
    method ForgotPassword(user_id: string, verify: UserVerifyStatus, email: string, now: int)
      returns (message: Message, mailed: string)
      requires Valid() && IsValid(user_id)
      modifies this
      ensures Valid() && refreshTokens == old(refreshTokens)
      ensures mailed == SignForgotPasswordToken(env, user_id, verify, now)
      ensures users == SetForgotPasswordToken(old(users), Parse(user_id).value, mailed, now)
      ensures message == CheckEmailToResetPassword
    {
      var forgot_password_token := SignForgotPasswordToken(env, user_id, verify, now);
      var updated := SetForgotPasswordToken(users, Parse(user_id).value, forgot_password_token, now);
      UniqueKeysKept(users, updated);
      users := updated;
      mailed := forgot_password_token;
      message := CheckEmailToResetPassword;
    }

    /** `resetPassword`: one update clears the forgot-password token and stores the new hash. */
    method ResetPassword(user_id: string, password: string, now: int) returns (message: Message)
      requires Valid() && IsValid(user_id)
      modifies this
      ensures Valid() && refreshTokens == old(refreshTokens)
      ensures users == ResetPasswordUpdate(old(users), Parse(user_id).value, env.hash(password), now)
      ensures message == ResetPasswordSuccess
    {
      var updated := ResetPasswordUpdate(users, Parse(user_id).value, env.hash(password), now);
      UniqueKeysKept(users, updated);
      users := updated;
      message := ResetPasswordSuccess;
    }
  }
}
