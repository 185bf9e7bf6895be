/** The enumerations of `constants/enums.ts`. */
module Enums {
  import opened Wrappers

  /** A numeric enum: Unverified = 0, Verified = 1, Banned = 2. */
  datatype UserVerifyStatus = Unverified | Verified | Banned {
    function Value(): int {
      match this
      case Unverified => 0
      case Verified => 1
      case Banned => 2
    }
  }

  /** Written into every token payload; no check ever reads it back. */
  datatype TokenType = AccessToken | RefreshToken | ForgotPasswordToken | EmailVerifyToken

  /** A string enum. */
  datatype BlogStatus = Draft | Published | Archived {
    function Name(): string {
      match this
      case Draft => "draft"
      case Published => "published"
      case Archived => "archived"
    }
  }

  /** The member of BlogStatus whose value is `s`, like an `isIn` over `Object.values(BlogStatus)`. */
  function ParseBlogStatus(s: string): (r: Option<BlogStatus>)
    ensures r.Some? ==> r.value.Name() == s
    ensures r.None? <==> forall b: BlogStatus :: b.Name() != s
  {
    if s == "draft" then Some(Draft)
    else if s == "published" then Some(Published)
    else if s == "archived" then Some(Archived)
    else None
  }

  /** Parsing a status name gives that status back. */
  lemma ParseBlogStatusName(b: BlogStatus)
    ensures ParseBlogStatus(b.Name()) == Some(b)
  {
  }
}
