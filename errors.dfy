/**
 * Error values of `models/Error.ts`, the HTTP status codes and the message
 * codes the core produces. Messages are codes, not their English text.
 */
module Errors {

  const BAD_REQUEST := 400
  const UNAUTHORIZED := 401
  const FORBIDDEN := 403
  const NOT_FOUND := 404
  const CONFLICT := 409
  const UNPROCESSABLE_ENTITY := 422

  datatype Message =
    // user messages
    | AccessTokenIsRequired | RefreshTokenIsRequired | RefreshTokenIsNotExists
    | EmailVerifyTokenIsRequired | EmailVerifyTokenInvalid | EmailIsVerified
    | ForgotPasswordIsRequired | ForgotPasswordTokenInvalid | UserNotFound
    | EmailOrPasswordIncorrect | EmailNotVerified | EmailAlreadyExists
    | ConfirmPasswordNotMatch | VerifyUserInvalid
    | LogoutSuccess | RefreshTokenSuccess | EmailVerifySuccess
    | CheckEmailToResetPassword | ResetPasswordSuccess
    // blog messages
    | BlogIdRequired | BlogIdInvalid | BlogNotFound | BlogPermissionDenied
    | InvalidStatus | InvalidTags
    // "Validation Error!"
    | ValidationError
    // the message of an error raised by a library (jsonwebtoken)
    | ErrorText(text: string)
    // lodash `capitalize` applied to a message
    | Capitalized(inner: Message)

  /** `ErrorsWithStatus`: a message with an HTTP status. */
  datatype ErrorsWithStatus = ErrorsWithStatus(message: Message, status: int)

  /**
   * The `msg` of one field in express-validator's mapped errors: a thrown
   * `ErrorsWithStatus` is kept as the object, a thrown `Error` (or a failed
   * built-in check) leaves only its message.
   */
  datatype Msg = Text(text: Message) | WithStatus(error: ErrorsWithStatus)

  /** One entry of `errors.mapped()`: the field name and its first error. */
  datatype FieldError = FieldError(field: string, msg: Msg)

  /** `ErrorsEntity`: an `ErrorsWithStatus` at 422 that carries all mapped errors. */
  datatype ErrorsEntity = ErrorsEntity(message: Message, status: int, errors: seq<FieldError>)

  /** `new ErrorsEntity({ message: "Validation Error!", errors })`. */
  function NewErrorsEntity(errors: seq<FieldError>): (e: ErrorsEntity)
    ensures e.status == UNPROCESSABLE_ENTITY
    ensures e.message == ValidationError && e.errors == errors
  {
    ErrorsEntity(ValidationError, UNPROCESSABLE_ENTITY, errors)
  }
}
