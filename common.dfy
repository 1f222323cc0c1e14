/** Values shared by every part of the model: optional values, bytes, the
    dynamically typed values a Gin context and a JWT claim map hold, and the
    (status, reason) pair that every handler and the middleware answer with. */
module Common {

  datatype Option<+T> = None | Some(value: T)

  /** A Go string is a sequence of bytes. */
  type byte = x: int | 0 <= x < 256

  /** Go's `int64` range; `strconv.Atoi` on a 64-bit platform and `int64(id)`
      work in it. */
  const MinInt64: int := -0x8000_0000_0000_0000
  const MaxInt64: int := 0x7FFF_FFFF_FFFF_FFFF

  /** Go's `int64` and `int32`. */
  type int64 = x: int | MinInt64 <= x <= MaxInt64
  type int32 = x: int | -0x8000_0000 <= x <= 0x7FFF_FFFF

  /** An `interface{}` value as read from `jwt.MapClaims` or from the Gin
      context: a string, an `int64`, `nil` (what a missing map key yields), or
      a value of any other dynamic type (a float64, a bool, a nested object). */
  datatype CtxValue = Str(s: string) | Int64(n: int64) | Nil | OtherValue

  /** The claim map a parsed token carries. */
  type Claims = map<string, CtxValue>

  /** `claims[key]` in Go: a missing key reads as `nil`. */
  function ClaimAt(claims: Claims, key: string): (v: CtxValue)
    ensures key !in claims ==> v == Nil
    ensures key in claims ==> v == claims[key]
  {
    if key in claims then claims[key] else Nil
  }

  /** The field names CreateCareer and CreateProfile report as missing; each
      is rendered in the response as the constructor's name. */
  datatype Field = Company | Position | Jobtype | Description | Startdate | Enddate
                 | Fullname | Address | Gender | Age

  /** Why a request ended the way it did: one constructor per distinct exit
      of the middleware and the handlers. */
  datatype Reason =
    | Success
    // BindJSON could not decode the request body
    | MalformedBody
    // SignUp validation and persistence
    | InvalidEmail | EmptyUsername | InvalidRole | ShortPassword | HashFailed
    | InvalidPhone | EmailExists | PhoneExists | CreateFailed
    // Login
    | UnknownEmail | PasswordMismatch | TokenFailed
    // role gate and path parameter
    | RoleDenied | BadId
    // create/update/read/delete of careers and profiles
    | MissingFields(fields: seq<Field>) | InvalidDateRange | QueryFailed | WebhookFailed
    // AuthMiddleware
    | TokenMissing | InvalidToken | ExpiredToken
    // a Go runtime panic, answered by Gin's recovery middleware
    | Panicked

  const StatusOK := 200
  const StatusBadRequest := 400
  const StatusUnauthorized := 401
  const StatusInternalServerError := 500

  /** The HTTP status the source answers each reason with. Duplicate email
      and phone are 500 in the source, and a failed role gate is 401. */
  function StatusOf(reason: Reason): (code: int)
    ensures code in {StatusOK, StatusBadRequest, StatusUnauthorized, StatusInternalServerError}
    ensures code == StatusOK <==> reason == Success
    ensures reason in {EmailExists, PhoneExists, CreateFailed, HashFailed, TokenFailed} ==> code == StatusInternalServerError
    ensures code == StatusUnauthorized <==>
              reason in {UnknownEmail, PasswordMismatch, RoleDenied, TokenMissing, InvalidToken, ExpiredToken}
  {
    match reason
    case Success => StatusOK
    case MalformedBody | InvalidEmail | EmptyUsername | InvalidRole | ShortPassword
      | InvalidPhone | BadId | MissingFields(_) | InvalidDateRange | QueryFailed => StatusBadRequest
    case UnknownEmail | PasswordMismatch | RoleDenied | TokenMissing | InvalidToken
      | ExpiredToken => StatusUnauthorized
    case HashFailed | EmailExists | PhoneExists | CreateFailed | TokenFailed
      | WebhookFailed | Panicked => StatusInternalServerError
  }

  datatype Response = Response(code: int, reason: Reason)

  /** The response the source sends for `reason`. */
  function Reply(reason: Reason): Response
  {
    Response(StatusOf(reason), reason)
  }
}
