/**
 * The server's error type and its conversion into an HTTP response: each
 * kind has a fixed status and a fixed message, and the body is the JSON
 * object `{"error":<message>,"status":<code>}`.
 */
module Errors {
  import opened Maybe
  import opened Text
  import opened Http

  /**
   * `AppError`. The foreign error values the source wraps (`sqlx::Error`,
   * `bcrypt::BcryptError`, `jsonwebtoken` and `uuid` errors) are kept as
   * their message text.
   */
  datatype AppError =
    | DatabaseError(detail: string)
    | AuthenticationError(detail: string)
    | ValidationError(detail: string)
    | NotFoundError(detail: string)
    | InternalServerError(detail: string)
    | PasswordHashError(detail: string)
    | JwtError(detail: string)
    | UuidError(detail: string)

  /**
   * What a fallible step yields: a value, an `AppError` returned with `?`,
   * or a panic, which ends the request without any response.
   */
  datatype Result<+T> = Ok(value: T) | Err(error: AppError) | Panic

  /** The status code half of the `match` in `into_response`. */
  function StatusOf(e: AppError): nat {
    match e
    case DatabaseError(_) => 500
    case AuthenticationError(_) => 401
    case ValidationError(_) => 400
    case NotFoundError(_) => 404
    case InternalServerError(_) => 500
    case PasswordHashError(_) => 500
    case JwtError(_) => 401
    case UuidError(_) => 400
  }

  /** The message half of the `match` in `into_response`. */
  function Label(e: AppError): (l: string)
    ensures '"' !in l
  {
    match e
    case DatabaseError(_) => "Database error"
    case AuthenticationError(_) => "Authentication error"
    case ValidationError(_) => "Validation error"
    case NotFoundError(_) => "Not found"
    case InternalServerError(_) => "Internal server error"
    case PasswordHashError(_) => "Password hashing error"
    case JwtError(_) => "JWT error"
    case UuidError(_) => "Invalid UUID"
  }

  /** serde_json's compact rendering of `json!({"error": message, "status": status})`, keys sorted. */
  function JsonErrorBody(message: string, status: nat): string {
    "{\"error\":\"" + (message + ("\",\"status\":" + (Decimal(status) + "}")))
  }

  /** `IntoResponse for AppError`. */
  function IntoResponse(e: AppError): (r: Response)
    ensures r.status == 400 <==> e.ValidationError? || e.UuidError?
    ensures r.status == 401 <==> e.AuthenticationError? || e.JwtError?
    ensures r.status == 404 <==> e.NotFoundError?
    ensures r.status == 500 <==> e.DatabaseError? || e.InternalServerError? || e.PasswordHashError?
    ensures Header(r, ContentType) == Some("application/json")
  {
    WithContentType(StatusOf(e), "application/json", JsonErrorBody(Label(e), StatusOf(e)))
  }

  /** Reads the two fields back out of an error body; None when it does not have that shape. */
  function ParseErrorBody(body: string): Option<(string, nat)> {
    var parts := Split(body, '"');
    if && |parts| == 7 && parts[0] == "{" && parts[1] == "error" && parts[2] == ":"
       && parts[4] == "," && parts[5] == "status"
       && |parts[6]| >= 3 && parts[6][0] == ':' && parts[6][|parts[6]| - 1] == '}'
       && AllDigits(parts[6][1..|parts[6]| - 1])
    then Some((parts[3], DigitsValue(parts[6][1..|parts[6]| - 1])))
    else None
  }

  /** The error body cut at each of its double quotes. */
  lemma JsonErrorBodyPieces(message: string, digits: string)
    ensures "{\"error\":\"" + (message + ("\",\"status\":" + (digits + "}")))
         == "{" + ['"'] + ("error" + ['"'] + (":" + ['"'] + (message + ['"'] + ("," + ['"'] + ("status" + ['"'] + (":" + digits + "}"))))))
  {
    var q := '"';
    var t6 := ":" + digits + "}";
    var t4 := "," + [q] + ("status" + [q] + t6);
    assert "\",\"status\":" + (digits + "}") == [q] + t4;
    assert "{\"error\":\"" == "{" + [q] + "error" + [q] + ":" + [q];
  }

  /** The pieces of an error body between its double quotes. */
  lemma SplitJsonErrorBody(message: string, status: nat)
    requires '"' !in message
    ensures Split(JsonErrorBody(message, status), '"')
         == ["{", "error", ":", message, ",", "status", ":" + Decimal(status) + "}"]
  {
    var q := '"';
    var digits := Decimal(status);
    var t6 := ":" + digits + "}";
    var t5 := "status" + [q] + t6;
    var t4 := "," + [q] + t5;
    var t3 := message + [q] + t4;
    var t2 := ":" + [q] + t3;
    var t1 := "error" + [q] + t2;
    JsonErrorBodyPieces(message, digits);
    assert q !in t6 by {
      assert forall i :: 0 <= i < |digits| ==> IsDigit(digits[i]);
    }
    SplitWithoutSeparator(t6, q);
    SplitCons("status", t6, q);
    SplitCons(",", t5, q);
    SplitCons(message, t4, q);
    SplitCons(":", t3, q);
    SplitCons("error", t2, q);
    SplitCons("{", t1, q);
  }

  lemma ParseJsonErrorBody(message: string, status: nat)
    requires '"' !in message
    ensures ParseErrorBody(JsonErrorBody(message, status)) == Some((message, status))
  {
    SplitJsonErrorBody(message, status);
    var t6 := ":" + Decimal(status) + "}";
    assert t6[1..|t6| - 1] == Decimal(status);
    DecimalValue(status);
  }

  /**
   * The body names the kind's message, and its `status` field equals the
   * status of the response.
   */
  lemma ErrorBodyFields(e: AppError)
    ensures ParseErrorBody(IntoResponse(e).body) == Some((Label(e), IntoResponse(e).status))
  {
    ParseJsonErrorBody(Label(e), StatusOf(e));
  }

  /** The detail string never reaches the client: the response depends on the kind alone. */
  lemma DetailNotShown(e: AppError, d: string)
    ensures IntoResponse(e.(detail := d)) == IntoResponse(e)
  {
  }
}
