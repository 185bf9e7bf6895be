# pet-project-api: sessions, account tokens and blogs, in Dafny

This project models the core of an Express/MongoDB API. It covers four parts:

- **The refresh-token session lifecycle.** Register, login and verify-email each store one refresh-token record. Refresh deletes the presented record and stores a new one whose `exp` is pinned. Logout deletes one record. The refresh validator accepts a token only if it verifies under the refresh secret *and* an identical record is stored. Access tokens are checked by signature alone.
- **The one-shot account tokens.** Each user has one `email_verify_token` field and one `forgot_password_token` field. Issuing a token overwrites the field, validation compares the presented token with the stored one, and consuming a token clears the field to `""`.
- **The blog entity and the blog collection.** This covers the constructor defaults, the validators, the in-place helpers, the tag list, partial updates, soft delete, the view count, filtering and pagination, and the route checks.
- **`validate`'s error selection.** It calls `next()` when there are no errors. Otherwise it forwards the first error that is not a 422, or else wraps all errors in a 422 entity error.

The code is stated in the system's own terms. Collaborators that cannot be seen are parameters:

- `jsonwebtoken`'s `sign` and `verify` are the fields of `Jwt.Codec`. `Jwt.Sound` states what the lemmas assume about them:
  - a signed token is non-empty and contains no whitespace;
  - it verifies to its payload until `exp`;
  - after `exp` it fails with `TokenExpired`;
  - under any other secret it fails with a `JsonWebTokenError`.

  `sign` also receives the order of the timing claims (`Jwt.ClaimOrder`). With the `expiresIn` option, `iat` and then `exp` are appended to the payload. The pinned branch of `signRefreshToken` puts `exp` into the payload, so `iat` lands after it. `Jwt.SignInjective` states that different claims, or the same claims in another order, give different strings. Only the rotation lemmas that say when a new string is issued assume it.
- `hashPassword` is the field `UserService.Env.hash`.
- The clock is a `now` parameter of every operation.
- The driver's generated `_id` is a parameter of `BlogService.BlogService.CreateBlog` and of `UserService.UserService.Register`.

Collections are sequences in natural order:

- `findOne` and `updateOne` act on the first match.
- `deleteOne` removes the first match.
- The refresh-token collection has no unique index on `token` (src/services/database.service.ts:39), so the same token can be stored twice.

`user.service.ts` and the `Blogs` helpers change state step by step, so they are classes with `modifies` clauses:

- `UserService.UserService` holds `users` and `refreshTokens`.
- `BlogService.BlogService` holds `blogs`.
- `BlogsSchema.Blog` holds one blog's fields.

The validators are functions over snapshots of the collections. They return what they would attach to the request, or the `msg` express-validator records. `Validation.Validate` is the `for...in` loop of `validate`.

Where the schema and the code disagree, the model follows the code:

- The user service's updates write the field `updated_at` (`$currentDate`, `$$NOW`), while the `User` constructor fills `updatedAt`. `UsersSchema.User` carries both.
- The `""` branch of `verifyEmailTokenValidator` cannot be reached, because emptiness is rejected first.

## Model

| member | source | states |
|---|---|---|
| UserService.UserService.CheckEmailExist | src/services/user.service.ts:14-17 | true exactly when some stored user has that email |
| UserService.RefreshOrder | src/services/user.service.ts:42-63 | the claims come `exp` before `iat` exactly when a truthy `exp` is passed in the payload |
| UserService.SignRefreshToken | src/services/user.service.ts:33-64 | with a sound codec the token is non-empty and whitespace-free, and decodes to `RefreshClaims` under the refresh secret until its `exp` |
| UserService.RefreshClaims | src/services/user.service.ts:33-64 | a truthy `exp` is kept as given, so rotation never extends a session; otherwise `exp` is `now` plus the refresh lifetime; owner, kind and status are the ones passed in |
| UserService.UserService.Register | src/services/user.service.ts:170-215 | inserts exactly one user and exactly one refresh record. The user has `verify` Unverified, password `hash(payload.password)`, `forgot_password_token` "", and the signed email-verify token that is mailed. The record carries the returned refresh token and its decoded `iat`/`exp`. A failed decode leaves the store unchanged. The unique indexes are kept |
| UserService.UserService.Login | src/services/user.service.ts:216-234 | no user changes; exactly one refresh record is appended, holding the returned refresh token and its decoded `iat`/`exp` |
| UserService.UserService.RefreshToken | src/services/user.service.ts:235-268 | removes one record of the old token first (kept even when the new token's decode fails), then appends one record for the new token, which carries the pinned `exp`; users unchanged |
| UserService.UserService.Logout | src/services/user.service.ts:270-275 | removes at most one record with exactly that token and always answers LOGOUT_SUCCESS |
| UserService.UserService.VerifyEmail | src/services/user.service.ts:276-311 | clears `email_verify_token`, sets Verified and `updated_at` on that user only, signs the pair with status Verified and appends its refresh record |
| UserService.UserService.ForgotPassword | src/services/user.service.ts:99-130 | overwrites that user's `forgot_password_token` with the token it mails; refresh records unchanged |
| UserService.UserService.ResetPassword | src/services/user.service.ts:131-149 | in one update clears `forgot_password_token` and stores `hash(password)`; apart from `updated_at` nothing else changes |
| UserService.ConsumeEmailVerify | src/services/user.service.ts:279-292 | only the matched user changes (token "", Verified, `updated_at`); ids and emails kept |
| UserService.SetForgotPasswordToken | src/services/user.service.ts:109-121 | only the matched user's token and `updated_at` change; ids and emails kept |
| UserService.ResetPasswordUpdate | src/services/user.service.ts:132-145 | only the matched user's token, password and `updated_at` change; ids and emails kept |
| UserService.UniqueKeysKept | src/services/database.service.ts:32 | an update that keeps every `_id` and email keeps `_id` and email unique |
| Collections.FindToken | src/middlewares/user.middleware.ts:272 | `findOne({ token })`: the first record with exactly that token, None iff there is none |
| Collections.DeleteOne | src/services/user.service.ts:271 | `deleteOne({ token })`: one record fewer (multiset) when present, unchanged otherwise |
| Collections.DeleteOneCount | src/services/user.service.ts:249 | deleting drops that token's count by exactly one if positive and leaves every other token's count alone |
| Collections.InsertCount | src/services/user.service.ts:252-259 | inserting adds exactly one copy of the record's token; a present token stays present |
| Collections.HasTokenIffCounted | src/services/database.service.ts:39 | a token is stored iff its count is positive |
| Collections.FindUserById | src/middlewares/user.middleware.ts:318 | `findOne({ _id })`: the first user with that id, None iff there is none |
| Collections.FindUserByCredentials | src/middlewares/user.middleware.ts:198-201 | `findOne({ email, password })`: a user with both, None iff there is none |
| UserMiddleware.RefreshTokenValidator | src/middlewares/user.middleware.ts:253-290 | an empty trimmed token is 401 REFRESH_TOKEN_IS_REQUIRED; an accepted token is stored and the attached payload is what `verify` decoded from it |
| UserMiddleware.VerifyEmailTokenValidator | src/middlewares/user.middleware.ts:299-343 | an empty trimmed token is 401 EMAIL_VERIFY_TOKEN_IS_REQUIRED; an accepted token decodes to the attached payload, and the user it names stores exactly that token |
| UserMiddleware.ForgotPasswordTokenValidator | src/middlewares/user.middleware.ts:93-135 | an empty trimmed token is 401 FORGOT_PASSWORD_IS_REQUIRED; an accepted token decodes to the attached payload, and the user it names stores exactly that token |
| UserMiddleware.LoginValidator | src/middlewares/user.middleware.ts:197-210 | the attached user is a stored Verified user with that email and the password's hash; every refusal is EMAIL_OR_PASSWORD_INCORRECT or EMAIL_NOT_VERIFIED |
| UserMiddleware.RegisterValidator | src/middlewares/user.middleware.ts:225-247 | no mapped errors iff the email is unused and the passwords agree; at most one error each on `email` and `confirm_password` |
| UserMiddleware.AccessTokenValidator | src/middlewares/user.middleware.ts:352-362 | the attached payload is what `verify` decoded, under the access secret, from the header's second word |
| UserMiddleware.RefreshTokenAcceptedIff | src/middlewares/user.middleware.ts:259-290 | a refresh token is accepted iff its trim is non-empty, verifies under the refresh secret and is stored; the decoded payload is attached; verified but not stored gives 401 REFRESH_TOKEN_IS_NOT_EXISTS |
| UserMiddleware.RefreshTokenFailuresAre401 | src/middlewares/user.middleware.ts:281-289 | every refusal is a 401 unless the library threw a non-JWT error, which is rethrown |
| UserMiddleware.VerifyEmailTokenAcceptedIff | src/middlewares/user.middleware.ts:305-337 | accepted iff non-empty, decodes under the email-verify secret, names an existing user, and equals that user's stored token |
| UserMiddleware.VerifyEmailTokenFailuresAre401 | src/middlewares/user.middleware.ts:325-343 | every refusal is a 401, and the EMAIL_IS_VERIFIED branch is never taken |
| UserMiddleware.ForgotPasswordTokenAcceptedIff | src/middlewares/user.middleware.ts:96-132 | accepted iff non-empty, decodes under the forgot-password secret, names an existing user, and equals that user's stored token |
| UserMiddleware.LoginAcceptedIff | src/middlewares/user.middleware.ts:197-210 | with unique emails, login passes iff a Verified user has that email and password hash, and that user is attached |
| UserMiddleware.LoginRejectsUnverifiedAndBanned | src/middlewares/user.middleware.ts:205-207 | a matching Unverified or Banned account gets EMAIL_NOT_VERIFIED |
| UserMiddleware.RegisterDecision | src/middlewares/user.middleware.ts:225-247 | an existing email is forwarded as 409; otherwise a password mismatch becomes a 422 entity error; it passes iff neither holds |
| UserMiddleware.AccessTokenFromBearer | src/middlewares/user.middleware.ts:358-361 | for `Bearer <t>` the outcome is exactly verifying `t` under the access secret; no store is read |
| UserMiddleware.AccessTokenMissing | src/middlewares/user.middleware.ts:359 | a header without a (non-empty) second word gives 401 ACCESS_TOKEN_IS_REQUIRED |
| UserMiddleware.VerifiedUserValidator | src/middlewares/user.middleware.ts:369-380 | `next()` iff the decoded status is Verified, otherwise 403 VERIFY_USER_INVALID |
| Common.VerifyAccessToken | src/utils/common.ts:17-43 | empty or missing token gives 401 ACCESS_TOKEN_IS_REQUIRED; success attaches the payload with a request and returns it without one; JWT errors go through the shared catch |
| Common.CatchJwt | src/utils/common.ts:34-42 | a JsonWebTokenError, including an expired token, becomes 401 with its capitalised message; anything else is rethrown unchanged |
| Common.ExpiredAccessTokenIs401 | src/utils/common.ts:35-40 | an expired access token gives a 401, never a rethrow |
| Common.SignedAccessTokenAccepted | src/utils/common.ts:25-33 | a signed access token is accepted before `exp` and yields exactly its payload |
| Common.NumberEnumToArray | src/utils/common.ts:13-15 | exactly the numeric values of the enum object |
| Common.NumberEnumToArrayConcat | src/utils/common.ts:14 | the filter keeps the original order (it distributes over concatenation) |
| Common.NumberEnumToArrayOfUserVerifyStatus | src/utils/common.ts:13-15 | on UserVerifyStatus the result is [0, 1, 2] |
| Validation.Decide | src/utils/validation.ts:11-27 | no call argument iff no errors; `next(msg)` only with the first forwardable error; the 422 entity iff there are errors and none is forwardable, carrying all of them |
| Validation.Validate | src/utils/validation.ts:11-27 | the one `next` call: none iff no errors; else the first error whose msg is an ErrorsWithStatus with status other than 422, unchanged; else a 422 "Validation Error!" entity with all mapped errors |
| Validation.DecideForwardableFirst | src/utils/validation.ts:16-21 | a forwardable field in front wins whatever follows |
| Validation.DecideSkipsNonForwardable | src/utils/validation.ts:16-21 | fields that are not forwardable are skipped when a later one is forwardable |
| Errors.NewErrorsEntity | src/models/Error.ts:20-26 | status 422, message "Validation Error!", errors carried over |
| UsersSchema.NewUser | src/models/schemas/Users.schemas.ts:26-37 | `_id`, email, username and password copied unchanged |
| UsersSchema.NewUserDefaults | src/models/schemas/Users.schemas.ts:26-37 | Unverified when status is absent or 0, Verified and Banned kept; tokens default to ""; both dates default to the same instant |
| ObjectIds.Parse | src/middlewares/user.middleware.ts:109 | `new ObjectId(s)` succeeds iff `s` is 24 hex digits, giving the lower-case id |
| Sessions.IssuedRefreshTokenAccepted | src/services/user.service.ts:197-204 | a refresh token just signed and stored by register, login, verify-email or refresh is accepted until its `exp` with its own claims |
| Sessions.ExpiredRefreshTokenRefused | src/middlewares/user.middleware.ts:281-287 | after its `exp`, a refresh token is refused with 401 "Jwt expired" whatever the store holds |
| Sessions.LogoutRevokes | src/services/user.service.ts:270-275 | with at most one stored copy, the token has no record after logout and is refused |
| Sessions.DuplicateSurvivesLogout | src/services/user.service.ts:270-275 | with two or more copies, one logout leaves the token accepted exactly as before |
| Sessions.RotationRevokesOld | src/services/user.service.ts:246-259 | with at most one copy and a new token that differs, the old token is refused after rotation and the new one is stored |
| Sessions.RotationIssuesNewToken | src/services/user.service.ts:42-63 | rotation hands back the very token it was given iff that token was itself made by a rotation (a truthy `exp`) and the rotation happens in the second it was signed; a token from register, login or verify-email always gets a new string |
| Sessions.FirstRotationRevokes | src/services/user.service.ts:246-259 | after the first rotation of such a token, at any instant, the token is refused, with 401 REFRESH_TOKEN_IS_NOT_EXISTS before its `exp`, when the store held at most one copy |
| Sessions.RotationNeverExtends | src/controllers/user.controller.ts:54-56 | across any chain of rotations before `exp`, each rotated token keeps the first token's owner, status and `exp`, and the chain succeeds |
| Sessions.AccessTokenIsNotARefreshToken | src/middlewares/user.middleware.ts:268-271 | with distinct secrets an access token is refused as a refresh token with 401 |
| Sessions.RefreshTokenIsNotAnAccessToken | src/utils/common.ts:25-28 | with distinct secrets a refresh token is refused as an access token with 401 |
| Sessions.AccessTokenAuthenticates | src/middlewares/user.middleware.ts:352-380 | a signed access token in a Bearer header authenticates until `exp`; the verified-user check passes iff it was signed with Verified |
| Sessions.MailedEmailVerifyTokenAccepted | src/services/user.service.ts:172-196 | the email-verify token mailed at registration is accepted for the new user until its `exp` |
| Sessions.EmailVerifyTokenSingleUse | src/services/user.service.ts:279-292 | after verify-email, no token naming that user is accepted any more |
| Sessions.MailedForgotPasswordTokenAccepted | src/services/user.service.ts:108-121 | the just-mailed forgot-password token is accepted until its `exp` |
| Sessions.EarlierForgotPasswordTokenRefused | src/middlewares/user.middleware.ts:116-121 | after a re-issue, any different earlier token is refused with 401 FORGOT_PASSWORD_TOKEN_INVALID |
| Sessions.ResetConsumesForgotPasswordToken | src/services/user.service.ts:131-145 | after reset, no forgot-password token naming that user is accepted |
| Sessions.ResetPasswordChangesLogin | src/services/user.service.ts:138-142 | after reset the new password logs in iff the account is Verified, and a different old password gets EMAIL_OR_PASSWORD_INCORRECT |
| BlogsSchema.Blog.constructor | src/models/schemas/Blogs.schemas.ts:28-40 | the new blog's fields are `Init` of the input, and it is trimmed |
| BlogsSchema.Init | src/models/schemas/Blogs.schemas.ts:28-40 | title and content trimmed; `_id` and author copied |
| BlogsSchema.InitDefaults | src/models/schemas/Blogs.schemas.ts:34-39 | status defaults to Draft, tags to [], view count to 0, isDeleted to false, both dates to the same instant |
| BlogsSchema.InitTrimmed | src/models/schemas/Blogs.schemas.ts:31-32 | neither end of a constructed title or content is whitespace |
| BlogsSchema.ValidateTitle | src/models/schemas/Blogs.schemas.ts:43-45 | true iff the trimmed title is 3 to 200 UTF-16 code units long |
| BlogsSchema.ValidateContent | src/models/schemas/Blogs.schemas.ts:47-49 | true iff the trimmed content is at least 10 UTF-16 code units long |
| BlogsSchema.TwoEmojiTitleValid | src/models/schemas/Blogs.schemas.ts:44 | a title of two emoji (four code units) is valid |
| Text.Utf16Length | src/models/schemas/Blogs.schemas.ts:44 | `length`: between the number of code points and twice that |
| Text.Utf16LengthOfBmp | src/models/schemas/Blogs.schemas.ts:44 | within the Basic Multilingual Plane `length` is the number of code points |
| Text.Utf16LengthOfTwoAstral | src/models/schemas/Blogs.schemas.ts:44 | two emoji have `length` 4 |
| BlogsSchema.ValidationSurvivesTrim | src/models/schemas/Blogs.schemas.ts:31-32 | trimming first, as the constructor does, never changes either verdict |
| BlogsSchema.Blog.Publish | src/models/schemas/Blogs.schemas.ts:56-59 | only `status` (Published) and `updatedAt` change |
| BlogsSchema.Blog.Archive | src/models/schemas/Blogs.schemas.ts:61-64 | only `status` (Archived) and `updatedAt` change |
| BlogsSchema.Blog.SoftDelete | src/models/schemas/Blogs.schemas.ts:66-69 | only `isDeleted` (true) and `updatedAt` change |
| BlogsSchema.Blog.IncrementViewCount | src/models/schemas/Blogs.schemas.ts:71-74 | `viewCount` rises by exactly 1; only it and `updatedAt` change |
| BlogsSchema.Blog.AddTag | src/models/schemas/Blogs.schemas.ts:76-81 | the tags become `AddTagTo` of the old tags; the date moves only when a tag is pushed; nothing else changes |
| BlogsSchema.AddTagTo | src/models/schemas/Blogs.schemas.ts:76-81 | an empty tag, or one whose `lower(tag)` is already in the list, leaves the list exactly as it was, duplicates included; otherwise the result is the old list with `lower(tag)` appended; so the list grows by at most one and the only value that can join is `lower(tag)` |
| BlogsSchema.AddTagSpec | src/models/schemas/Blogs.schemas.ts:76-81 | keeps the list duplicate-free, adds exactly `lower(tag)` at the end when non-empty and new, keeps the old prefix, and returns the list unchanged when the tag is empty or already present |
| BlogsSchema.Blog.RemoveTag | src/models/schemas/Blogs.schemas.ts:83-89 | the tags become `RemoveTagFrom` of the old tags; the date moves only when one is removed |
| BlogsSchema.RemoveTagFrom | src/models/schemas/Blogs.schemas.ts:83-89 | one element shorter iff `lower(tag)` was present, otherwise the same length; no value is added |
| BlogsSchema.RemoveTagSpec | src/models/schemas/Blogs.schemas.ts:83-89 | exactly one copy of `lower(tag)` leaves the multiset, the first one, with the rest in order; absent means unchanged |
| BlogsSchema.RemoveTagDistinct | src/models/schemas/Blogs.schemas.ts:83-89 | on a duplicate-free list no copy remains and no duplicate appears |
| BlogsSchema.RemoveUndoesAdd | src/models/schemas/Blogs.schemas.ts:76-89 | removing a tag just added restores the list |
| BlogsSchema.TagIndex | src/models/schemas/Blogs.schemas.ts:84 | `indexOf(lower(tag))`: the first position, None iff absent |
| BlogsSchema.Blog.ToDocument | src/models/schemas/Blogs.schemas.ts:92-105 | every field comes back unchanged, the optional ones present; for a trimmed blog the constructor rebuilds exactly this blog from the document, at any clock reading |
| BlogsSchema.InitAsDocument | src/models/schemas/Blogs.schemas.ts:92-105 | document then constructor is the identity on trimmed blogs |
| BlogService.BlogService.CreateBlog | src/services/blog.service.ts:7-17 | an invalid author id is a BSON error with nothing stored; otherwise exactly one document is appended, the constructed blog under the fresh `_id` |
| BlogService.BlogService.UpdateBlog | src/services/blog.service.ts:19-49 | `matchedCount` 1 and exactly the first live blog with that id replaced by `Updated`, else 0 and nothing changes; invalid id is a BSON error |
| BlogService.ApplyUpdate | src/services/blog.service.ts:38-46 | `$set`: `updatedAt` and every given field take their new values, absent fields are kept, and `_id`, author, view count, deletion flag and `createdAt` never change |
| BlogService.Updated | src/services/blog.service.ts:20-36 | `updatedAt` always set; title, content, status and tags set only when given; title and content trimmed; tags lower-cased element-wise, length and order kept; nothing else changes |
| BlogService.LowerAll | src/services/blog.service.ts:35 | same length, each tag lower-cased in place |
| BlogService.BlogService.GetBlogById | src/services/blog.service.ts:51-69 | missing or deleted: null and nothing changes; found: the document as fetched is returned and its stored `viewCount` rises by exactly 1 |
| BlogService.LiveMatchIsIdMatch | src/services/blog.service.ts:59-65 | with unique ids, the `{ _id }` increment hits the blog fetched with `isDeleted: false` |
| BlogService.BlogService.DeleteBlog | src/services/blog.service.ts:106-120 | soft-deletes exactly the first live blog with that id (`matchedCount` 1), else 0 and nothing changes |
| BlogService.DeletedIsGone | src/services/blog.service.ts:106-120 | after a delete no live blog has that id, so a second delete, an update or a read matches nothing |
| BlogService.ListFilter | src/services/blog.service.ts:73-83 | the author filter is present iff a valid author id is given; the status filter iff a non-empty status is given |
| BlogService.Matching | src/services/blog.service.ts:87 | `find(filter)`: exactly the stored documents that are live and satisfy the filter |
| BlogService.GetBlogs | src/services/blog.service.ts:71-104 | refused iff `page < 1` (negative skip); otherwise `total` counts the matches, `totalPages` is their ceiling division by `limit`, and the page is the slice from `(page-1)*limit` of the newest-first arrangement of the matches the database returns |
| BlogService.GetBlogsPage | src/services/blog.service.ts:71-104 | every listed blog is live and matches, the page is newest first, at most `limit` are listed, and a page is non-empty iff `page <= totalPages` |
| BlogService.PagesNewestFirst | src/services/blog.service.ts:88-90 | within one arrangement, every blog on an earlier page is at least as new as every blog on a later page |
| BlogService.ListingCoversMatches | src/services/blog.service.ts:72-101 | within one arrangement of the matches, pages 1 to `totalPages` together hold every match exactly once |
| BlogService.CeilDiv | src/services/blog.service.ts:101 | `Math.ceil(total / limit)`: the page count holds every result and one page fewer does not |
| BlogService.CeilDivIsLeast | src/services/blog.service.ts:101 | `totalPages` is the least page count whose pages hold every result |
| BlogService.PagesCoverMatches | src/services/blog.service.ts:72-101 | for one fixed sequence, pages 1 to `totalPages` laid end to end are that sequence |
| BlogService.AllPagesPrefix | src/services/blog.service.ts:72 | for one fixed sequence, the first `n` pages are its first `n * limit` elements |
| BlogMiddleware.BlogIdCheck | src/middlewares/blog.middleware.ts:34-60 | an empty id gives `notEmpty`'s BLOG_ID_REQUIRED; the blog it attaches is stored, live and has exactly that id |
| BlogMiddleware.BlogIdAcceptedIff | src/middlewares/blog.middleware.ts:39-58 | a blog id passes iff it is valid and names a live blog, which is the one attached |
| BlogMiddleware.BlogIdDecision | src/middlewares/blog.middleware.ts:34-58 | an invalid id is forwarded as 400, a missing or soft-deleted blog as 404, an empty id as a 422 entity error |
| BlogMiddleware.DeletedBlogNotFound | src/middlewares/blog.middleware.ts:46-55 | after a soft delete the blog's id gets 404 |
| BlogMiddleware.StatusCheck | src/middlewares/blog.middleware.ts:62-68 | passes iff absent or the name of a BlogStatus; a refusal is INVALID_STATUS |
| BlogMiddleware.TagsCheck | src/middlewares/blog.middleware.ts:70-84 | accepts iff the tags are absent, or an array whose elements are all strings that are non-blank after trimming; a refusal is INVALID_TAGS |
| BlogMiddleware.StatusAcceptedIff | src/middlewares/blog.middleware.ts:62-68 | a status passes iff absent or one of draft, published, archived; a bad one is a 422 field error |
| BlogMiddleware.AcceptedTagsStayNonBlank | src/middlewares/blog.middleware.ts:76-81 | tags that pass the check and are stored by `updateBlog` are all non-blank, one per element sent |
| BlogMiddleware.CheckBlogOwnership | src/middlewares/blog.middleware.ts:156-179 | 404 with no blog, 403 when the author's id string differs from `user_id`, and `next()` iff it is equal |
| BlogMiddleware.AuthorPassesOwnership | src/middlewares/blog.middleware.ts:169-176 | the author passes with the id the blog was created from iff that id is in lower case; any other user id is refused with 403 |
| Enums.ParseBlogStatus | src/constants/enums.ts:14-18 | the BlogStatus with that value, None iff no status has it |
| Text.Trim | src/models/schemas/Blogs.schemas.ts:31-32 | `trim()`: the result is one contiguous slice of the input, everything before and after that slice is whitespace, and neither end of the result is whitespace, which fixes the result exactly |
| Text.TrimCuts | src/models/schemas/Blogs.schemas.ts:31-32 | cutting leading whitespace and then trailing whitespace, as `trim()` does, leaves a slice of the input with only whitespace cut away on either side |
| Text.SecondFieldOfJoin | src/middlewares/user.middleware.ts:359 | `split(' ')[1]` of `scheme + " " + token` is the token when neither contains a space |

## Left out

- JWT internals (`utils/jwt`, `jsonwebtoken`) and `hashPassword` (`utils/crypto`) are not part of this model. They are parameters, and `Jwt.Sound` and `Jwt.SignInjective` state the assumptions about the codec. Of the serialisation, only the order of `iat` and `exp` is modelled. `token_type` is signed but never read back, as in the source.
- Concurrency: the `Promise.all` groups are modelled as the sequential steps the code awaits. Rotation races are not modelled.
- Passive expiry: the TTL index on `exp` is never created. Expiry comes only from `verify`. The store never drops records by itself.
- Mail: `verifySendMail` and `resetPasswordSendMail` only receive the token. `ForgotPassword` returns it as `mailed`; `Register` stores the one it mails.
- HTTP plumbing: controllers, routes, the server and the error middleware. Route order appears only as requirements. For example, service methods that take a string user id require a valid ObjectId string, because such ids come from server-signed tokens or `_id.toString()`.
- express-validator built-ins are not modelled: `isEmail`, `isStrongPassword`, `isString`, `notEmpty` except on the blog id, `isLength`, and the `trim`/`escape` sanitiser order. The field schemas of `userIdSchema` and the email lookup of `forgotPasswordValidator` are there, but neither is part of this model.
- lodash `capitalize`: messages are enum codes, and `Errors.Message.Capitalized` marks a capitalised message.
- The database's sort is a parameter of `GetBlogs`: any newest-first arrangement of the matches. MongoDB leaves the order of blogs with equal `createdAt` open. Each page is a separate query, so two page requests may order such ties differently. `BlogService.ListingCoversMatches` and `BlogService.PagesNewestFirst` hold for one arrangement only.
- `Number(limit)` and `Number(page)`: NaN, zero, negative and fractional values are not modelled. `limit > 0` is required, and `page` is an integer.
- ObjectId: only the 24-hex-digit string form is modelled. The 12-byte binary form and numeric ids are left out.
- `Text.Lower` changes ASCII letters only; `toLowerCase` on other letters is not modelled.
- `Text.Trim` strips the ECMAScript whitespace and line-terminator set, but no other Unicode handling is modelled.
- The unique index on `username` is not modelled: no operation of this model writes a username except `Register`, and the source does not check it before inserting.
- Dates are opaque integer clock readings.
- The refresh reply's `data` is named `{ new_access_token, new_refresh_token }` in the source. `UserService.Reply` calls it a `TokenPair`.
