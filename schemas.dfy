/** Request and response schemas with their field constraints. A body that
    breaks a constraint is refused with status 422 before any handler runs. */
module Schemas {
  import opened Common
  import Jwt

  datatype UserCreate = UserCreate(username: string, email: string, fullName: Option<string>, password: string)

  /** `username` has 3 to 50 characters and `password` at least 6. */
  predicate ValidUserCreate(u: UserCreate) {
    3 <= |u.username| <= 50 && |u.password| >= 6
  }

  /** Validation of a `UserCreate` body. The email format check is not modelled. */
  function CheckUserCreate(u: UserCreate): (r: Result<UserCreate>)
    ensures r.Success? <==> (3 <= |u.username| <= 50 && |u.password| >= 6)
    ensures r.Success? ==> r.value == u
    ensures r.Failure? ==> r.error.status == Unprocessable
  {
    if ValidUserCreate(u) then Success(u) else Failure(HttpError(Unprocessable, "Unprocessable Entity"))
  }

  /** Every field optional; `role` is any text, not the Role enum. */
  datatype UserUpdate = UserUpdate(
    email: Option<string>,
    fullName: Option<string>,
    password: Option<string>,
    role: Option<string>,
    isActive: Option<bool>)

  /** A password, when one is given, has at least 6 characters. */
  predicate ValidUserUpdate(u: UserUpdate) {
    u.password.Some? ==> |u.password.value| >= 6
  }

  function CheckUserUpdate(u: UserUpdate): (r: Result<UserUpdate>)
    ensures r.Success? <==> (u.password.None? || |u.password.value| >= 6)
    ensures r.Success? ==> r.value == u
    ensures r.Failure? ==> r.error.status == Unprocessable
  {
    if ValidUserUpdate(u) then Success(u) else Failure(HttpError(Unprocessable, "Unprocessable Entity"))
  }

  const EmptyUpdate := UserUpdate(None, None, None, None, None)

  /** The login and refresh response; `token_type` defaults to "bearer". */
  datatype TokenResponse = TokenResponse(accessToken: Jwt.Token, refreshToken: Jwt.Token, tokenType: string)

  const BearerType := "bearer"

  /** The decoded access-token payload: all three fields are required. */
  datatype TokenPayload = TokenPayload(sub: string, exp: int, role: string)

  datatype OrderItemCreate = OrderItemCreate(productId: int, quantity: int)

  datatype OrderCreate = OrderCreate(items: seq<OrderItemCreate>)

  /** Any text; the three intended values are not enforced. */
  datatype OrderUpdateState = OrderUpdateState(state: string)

  datatype ExportFormat = Csv | Excel | Pdf

  function FormatValue(f: ExportFormat): string {
    match f
    case Csv => "csv"
    case Excel => "excel"
    case Pdf => "pdf"
  }

  /** Validation of the `format` field: only the three enum values are accepted. */
  function ParseExportFormat(s: string): (r: Option<ExportFormat>)
    ensures r.Some? <==> (s == "csv" || s == "excel" || s == "pdf")
    ensures r.Some? ==> FormatValue(r.value) == s
  {
    if s == "csv" then Some(Csv)
    else if s == "excel" then Some(Excel)
    else if s == "pdf" then Some(Pdf)
    else None
  }

  lemma FormatRoundTrip(f: ExportFormat)
    ensures ParseExportFormat(FormatValue(f)) == Some(f)
  {
  }

  /** `user_id` is optional. */
  datatype ExportRequest = ExportRequest(format: ExportFormat, userId: Option<int>)
}
