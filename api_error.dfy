/**
 * The ApiError record every handler throws, and the outcome of a handler:
 * a value, an ApiError, or some other exception (a TypeError from reading a
 * property of null, a Mongoose validation or cast error, a duplicate-key error
 * from a unique index, a bcrypt argument error) that reaches the async wrapper.
 */
module ApiErrors {
  import opened Wrappers

  /**
   * A value passed positionally to the ApiError constructor. The handlers pass
   * strings, null, an empty object literal, or nothing at all.
   */
  datatype Arg = Omitted | NullArg | Text(s: string) | EmptyObject | TextList(items: seq<string>)

  const DefaultMessage: string := "Something went wrong"

  /** The fields an ApiError carries once constructed. */
  datatype ApiError = ApiError(statusCode: int, data: Arg, message: Arg, success: bool, errors: Arg)

  /**
   * `new ApiError(statusCode, message, errors)`. The `data` parameter is
   * commented out of the constructor, so the second positional argument is the
   * message and the third the errors; a default applies only to an omitted
   * argument, so an explicit null message stays null.
   */
  function NewApiError(statusCode: int, message: Arg, errors: Arg): (e: ApiError)
    ensures e.statusCode == statusCode
    ensures !e.success && e.data == NullArg
    ensures message != Omitted ==> e.message == message
    ensures message == Omitted ==> e.message == Text(DefaultMessage)
    ensures errors != Omitted ==> e.errors == errors
    ensures errors == Omitted ==> e.errors == TextList([])
  {
    ApiError(
      statusCode,
      NullArg,
      if message.Omitted? then Text(DefaultMessage) else message,
      false,
      if errors.Omitted? then TextList([]) else errors)
  }

  /** The exceptions other than ApiError that a handler can raise. */
  datatype Exception = TypeError | ValidationError | CastError | DuplicateKey | BcryptError

  datatype Outcome<+T> = Ok(value: T) | Fail(error: ApiError) | Thrown(exception: Exception)

  /** `throw new ApiError(statusCode, "<message>")`, the usual two-argument call. */
  function Reject<T>(statusCode: int, message: string): (o: Outcome<T>)
    ensures o.Fail? && o.error.statusCode == statusCode && o.error.message == Text(message)
  {
    Fail(NewApiError(statusCode, Text(message), Omitted))
  }

  /** `throw new ApiError(statusCode, null, "<message>")`: the message ends up null. */
  function RejectNullMessage<T>(statusCode: int, message: string): (o: Outcome<T>)
    ensures o.Fail? && o.error.statusCode == statusCode
    ensures o.error.message == NullArg && o.error.errors == Text(message)
  {
    Fail(NewApiError(statusCode, NullArg, Text(message)))
  }

  predicate FailsWith<T>(o: Outcome<T>, statusCode: int) {
    o.Fail? && o.error.statusCode == statusCode
  }

  /** JavaScript truthiness of an error's message property. */
  predicate MessageTruthy(m: Arg) {
    match m
    case Omitted => false
    case NullArg => false
    case Text(s) => s != ""
    case EmptyObject => true
    case TextList(_) => true
  }

  /** `error?.message || fallback`, as the catch blocks rebuild their error. */
  function MessageOr(m: Arg, fallback: string): (r: Arg)
    ensures MessageTruthy(m) ==> r == m
    ensures !MessageTruthy(m) ==> r == Text(fallback)
  {
    if MessageTruthy(m) then m else Text(fallback)
  }
}
