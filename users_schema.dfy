/** `models/schemas/Users.schemas.ts`: the user document and its constructor defaults. */
module UsersSchema {
  import opened Wrappers
  import opened Enums
  import opened ObjectIds

  /** `UserType`: the constructor's argument; `None` is an absent (undefined) field. */
  datatype UserType = UserType(
    id: Option<ObjectId>, email: string, username: string, password: string,
    verify: Option<UserVerifyStatus>, createdAt: Option<int>, updatedAt: Option<int>,
    email_verify_token: Option<string>, forgot_password_token: Option<string>)

  /**
   * A stored user. `updated_at` is not a schema field: the service's updates
   * write `updated_at`, while the constructor fills `updatedAt`.
   */
  datatype User = User(
    id: Option<ObjectId>, email: string, username: string, password: string,
    verify: UserVerifyStatus, createdAt: int, updatedAt: int,
    email_verify_token: string, forgot_password_token: string, updated_at: Option<int>)

  /** `x || ""` on an optional string. */
  function OrEmpty(s: Option<string>): (r: string)
    ensures s.None? ==> r == ""
    ensures s.Some? ==> r == s.value
  {
    match s
    case None => ""
    case Some(v) => v
  }

  /** `new User(user)`, where `date` is the `new Date()` taken at construction. */
  function NewUser(u: UserType, date: int): (r: User)
    ensures r.id == u.id && r.email == u.email && r.username == u.username && r.password == u.password
    ensures r.updated_at.None?
  {
    User(u.id, u.email, u.username, u.password,
         // `user.verify || Unverified`: 0 (Unverified) is falsy, so only Verified and Banned survive as given
         if u.verify == Some(Verified) || u.verify == Some(Banned) then u.verify.value else Unverified,
         if u.createdAt.Some? then u.createdAt.value else date,
         if u.updatedAt.Some? then u.updatedAt.value else date,
         OrEmpty(u.email_verify_token), OrEmpty(u.forgot_password_token), None)
  }

  /** The defaults: Unverified for an absent or 0 status, "" for absent tokens, one instant for both dates. */
  lemma NewUserDefaults(u: UserType, date: int)
    ensures u.verify.None? || u.verify == Some(Unverified) ==> NewUser(u, date).verify == Unverified
    ensures u.verify == Some(Verified) ==> NewUser(u, date).verify == Verified
    ensures u.verify == Some(Banned) ==> NewUser(u, date).verify == Banned
    ensures u.email_verify_token.None? ==> NewUser(u, date).email_verify_token == ""
    ensures u.forgot_password_token.None? ==> NewUser(u, date).forgot_password_token == ""
    ensures u.createdAt.None? && u.updatedAt.None? ==>
      NewUser(u, date).createdAt == NewUser(u, date).updatedAt == date
  {
  }
}
