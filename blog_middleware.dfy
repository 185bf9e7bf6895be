/**
 * `middlewares/blog.middleware.ts`: the blog-id lookup, the status whitelist,
 * the tags check and the ownership check, as functions over a snapshot of the
 * blog collection.
 */
module BlogMiddleware {
  import opened Wrappers
  import opened Enums
  import opened Errors
  import opened ObjectIds
  import opened BlogsSchema
  import opened BlogService
  import Validation
  import Text

  /** A JSON request value, as far as the tags check looks at it. */
  datatype Json = JString(s: string) | JArray(items: seq<Json>) | JOther

  /**
   * `blogIdSchema`, with the first error `mapped()` keeps: `notEmpty`'s
   * message for an empty id, else 400 for an invalid id, else 404 when no
   * live blog has it; otherwise the blog attached to the request.
   */
  function BlogIdCheck(blogs: seq<BlogFields>, value: string): (r: Result<BlogFields, Msg>)
    ensures value == "" ==> r == Failure(Text(BlogIdRequired))
    ensures r.Success? ==> r.value in blogs && !r.value.isDeleted && Parse(value).Some? && r.value.id == Parse(value)
  {
    if value == "" then Failure(Text(BlogIdRequired))
    else if !IsValid(value) then Failure(WithStatus(ErrorsWithStatus(BlogIdInvalid, BAD_REQUEST)))
    else match FindLive(blogs, Parse(value).value)
      case None => Failure(WithStatus(ErrorsWithStatus(BlogNotFound, NOT_FOUND)))
      case Some(k) => Success(blogs[k])
  }

  /** The mapped errors of one field. */
  function FieldErrorsOf<X>(field: string, r: Result<X, Msg>): (mapped: seq<FieldError>)
    ensures r.Success? ==> mapped == []
    ensures r.Failure? ==> mapped == [FieldError(field, r.error)]
  {
    if r.Success? then [] else [FieldError(field, r.error)]
  }

  /** A blog id passes iff it is a valid id of a live blog, and then the attached blog is that one. */
  lemma BlogIdAcceptedIff(blogs: seq<BlogFields>, value: string)
    ensures BlogIdCheck(blogs, value).Success? <==> IsValid(value) && FindLive(blogs, Parse(value).value).Some?
    ensures BlogIdCheck(blogs, value).Success? ==>
      var b := BlogIdCheck(blogs, value).value;
      b in blogs && b.id == Parse(value) && !b.isDeleted
  {
    if value == "" {
      assert !IsValid(value);
    }
  }

  /** What `validate` does with the blog id: 400 for an invalid id, 404 for a missing or deleted blog, 422 for an empty one. */
  lemma BlogIdDecision(blogs: seq<BlogFields>, value: string)
    ensures value != "" && !IsValid(value) ==>
      Validation.Decide(FieldErrorsOf("blog_id", BlogIdCheck(blogs, value))) == Validation.NextError(ErrorsWithStatus(BlogIdInvalid, BAD_REQUEST))
    ensures IsValid(value) && FindLive(blogs, Parse(value).value).None? ==>
      Validation.Decide(FieldErrorsOf("blog_id", BlogIdCheck(blogs, value))) == Validation.NextError(ErrorsWithStatus(BlogNotFound, NOT_FOUND))
    ensures value == "" ==>
      Validation.Decide(FieldErrorsOf("blog_id", BlogIdCheck(blogs, value))).NextEntity?
  {
    if BlogIdCheck(blogs, value).Failure? {
      Validation.DecideOneField("blog_id", BlogIdCheck(blogs, value).error);
    }
  }

  /** After a soft delete, the blog's id is refused with 404. */
  lemma DeletedBlogNotFound(blogs: seq<BlogFields>, value: string, now: int)
    requires UniqueBlogIds(blogs) && IsValid(value) && FindLive(blogs, Parse(value).value).Some?
    ensures var k := FindLive(blogs, Parse(value).value).value;
      BlogIdCheck(blogs[k := blogs[k].(isDeleted := true, updatedAt := now)], value)
        == Failure(WithStatus(ErrorsWithStatus(BlogNotFound, NOT_FOUND)))
  {
    DeletedIsGone(blogs, Parse(value).value, now);
  }

  /** `statusSchema`: optional, else one of the BlogStatus values. */
  function StatusCheck(status: Option<string>): (r: Result<(), Msg>)
    ensures r.Success? <==> status.None? || exists b: BlogStatus :: b.Name() == status.value
    ensures r.Failure? ==> r.error == Text(InvalidStatus)
  {
    if status.None? then Success(())
    else match ParseBlogStatus(status.value)
      case Some(b) => assert b.Name() == status.value; Success(())
      case None => Failure(Text(InvalidStatus))
  }

  /** A status passes iff it is absent or the name of a BlogStatus; a bad one is a 422 field error. */
  lemma StatusAcceptedIff(status: Option<string>)
    ensures StatusCheck(status).Success? <==> status.None? || exists b: BlogStatus :: b.Name() == status.value
    ensures StatusCheck(status).Failure? ==> Validation.Decide(FieldErrorsOf("status", StatusCheck(status))).NextEntity?
  {
  }

  /** The `every` of the tags check: each element a string with a non-blank trim. */
  predicate NonBlankStrings(items: seq<Json>) {
    forall i :: 0 <= i < |items| ==> items[i].JString? && Text.Trim(items[i].s) != ""
  }

  /** `tagsSchema` (optional, `isArray`, then the custom `every`), both failures reporting INVALID_TAGS. */
  function TagsCheck(tags: Option<Json>): (r: Result<(), Msg>)
    ensures r.Success? <==> tags.None? || (tags.value.JArray? && NonBlankStrings(tags.value.items))
    ensures r.Success? && tags.Some? ==>
      tags.value.JArray? && forall i :: 0 <= i < |tags.value.items| ==> tags.value.items[i].JString? && Text.Trim(tags.value.items[i].s) != ""
    ensures r.Failure? ==> tags.Some? && r.error == Text(InvalidTags)
  {
    if tags.None? then Success(())
    else if !tags.value.JArray? then Failure(Text(InvalidTags))
    else if NonBlankStrings(tags.value.items) then Success(())
    else Failure(Text(InvalidTags))
  }

  /** The strings of an array that passed the tags check. */
  function TagStrings(items: seq<Json>): (r: seq<string>)
    requires forall i :: 0 <= i < |items| ==> items[i].JString?
    ensures |r| == |items| && forall i :: 0 <= i < |items| ==> r[i] == items[i].s
  {
    seq(|items|, i requires 0 <= i < |items| => items[i].s)
  }

  /** Tags accepted by the check and stored by `updateBlog` are all non-blank, one per element sent. */
  lemma AcceptedTagsStayNonBlank(doc: BlogFields, payload: UpdateBlogReqBody, items: seq<Json>, now: int)
    requires TagsCheck(Some(JArray(items))).Success?
    requires payload.tags == Some(TagStrings(items))
    ensures var t := Updated(doc, payload, now).tags;
      |t| == |items| && forall i :: 0 <= i < |t| ==> Text.Trim(t[i]) != ""
  {
    var t := Updated(doc, payload, now).tags;
    forall i | 0 <= i < |t| ensures Text.Trim(t[i]) != "" {
      Text.LowerKeepsBlankness(items[i].s);
    }
  }

  /** `checkBlogOwnership`: 404 with no blog attached, 403 for someone else's blog, otherwise `next()`. */
  function CheckBlogOwnership(user_id: string, blog: Option<BlogFields>): (call: Validation.NextCall)
    ensures call == Validation.NextNone <==> blog.Some? && blog.value.authorId.ToString() == user_id
    ensures blog.None? ==> call == Validation.NextError(ErrorsWithStatus(BlogNotFound, NOT_FOUND))
    ensures blog.Some? && blog.value.authorId.ToString() != user_id ==>
      call == Validation.NextError(ErrorsWithStatus(BlogPermissionDenied, FORBIDDEN))
  {
    if blog.None? then Validation.NextError(ErrorsWithStatus(BlogNotFound, NOT_FOUND))
    else if blog.value.authorId.ToString() != user_id then Validation.NextError(ErrorsWithStatus(BlogPermissionDenied, FORBIDDEN))
    else Validation.NextNone
  }

  /**
   * The author of a blog passes the ownership check with the `user_id` the
   * blog was created from exactly when that id is written in lower case (as
   * every id the server issues is); anyone with another id is refused.
   */
  lemma AuthorPassesOwnership(user_id: string, other: string, blog: BlogFields)
    requires Parse(user_id).Some? && blog.authorId == Parse(user_id).value
    requires Parse(other).Some? && Parse(other) != Parse(user_id)
    ensures CheckBlogOwnership(user_id, Some(blog)) == Validation.NextNone <==> Text.Lower(user_id) == user_id
    ensures CheckBlogOwnership(other, Some(blog)) == Validation.NextError(ErrorsWithStatus(BlogPermissionDenied, FORBIDDEN))
  {
    if blog.authorId.ToString() == other {
      Text.LowerIdempotent(user_id);
    }
  }
}
