/** The response envelope every endpoint returns, and the message catalog
    its texts come from. A response is a plain record here; turning it into
    JSON is left to the framework. */
module ApiResponse {
  import opened Common

  /** The `errors` payload of a failed validation: the names of the fields
      that failed (Laravel's per-field message texts are not modelled). */
  type ErrorBag = set<string>

  /** One JSON response: its HTTP status and the keys of its body. `data` is
      present exactly on success responses; `errors` only on error responses
      that carry a non-empty error bag. */
  datatype Response<D> = Response(
    status: int,
    success: bool,
    message: string,
    data: Option<D>,
    errors: Option<ErrorBag>)

  const GeneralSuccess := "Operation completed successfully"
  const GeneralError := "Something went wrong"

  /** The static message catalog, key by key. */
  const Messages: map<string, string> := map[
    "already_registered_mobile" := "Mobile number already registered",
    "otp_sent" := "OTP sent successfully",
    "otp_failed_to_sent" := "Failed to send OTP",
    "invalid_expired_otp" := "Invalid or expired OTP",
    "logged_in_success" := "Logged in successfully",
    "otp_verification_failed" := "Failed to verify OTP",
    "challenges_retrived" := "Challenges retrieved successfully",
    "challenges_create_success" := "Challenge created successfully",
    "challenges_create_error" := "Failed to create challenge",
    "challenges_not_found" := "Challenge not found",
    "challenges_list_error" := "Failed to fetch challenges",
    "challenges_deleted" := "Challenge deleted successfully",
    "activity_created" := "Challenge activities created successfully",
    "activity_updated" := "Challenge activity updated successfully",
    "activity_updated_failed" := "Failed to update activity",
    "activity_create_error" := "Failed to create challenge activities",
    "activity_not_found" := "Challenge activity not found",
    "activity_unauthorized" := "You are not authorized to access this activity",
    "activity_unprocessable" := "Cannot create activity for inactive challenge",
    "activity_retrieved" := "Activities retrieved successfully",
    "activity_progress_retrived" := "Progress retrieved successfully",
    "activity_pending_retrived" := "Pending activities retrieved successfully",
    "activity_statistics_retrieved" := "Activity statistics retrieved successfully",
    "logout_success" := "Logged out successfully",
    "general_success" := GeneralSuccess,
    "general_error" := GeneralError
  ]

  /** The catalog text for `key`, or the general error text for a key the
      catalog does not hold. No catalog text is empty, so a looked-up message
      is never replaced by an envelope's default. */
  function GetMessage(key: string): (r: string)
    ensures key in Messages ==> r == Messages[key]
    ensures key !in Messages ==> r == GeneralError
    ensures !FalsyString(r)
  {
    if key in Messages then Messages[key] else Messages["general_error"]
  }

  /** A success envelope: `success` true, the data, and the message, where
      a falsy message ("" or "0") is replaced by the general success text. */
  function SuccessResponse<D>(data: D, message: string := "", status: int := 200): (r: Response<D>)
    ensures r.success && r.status == status
    ensures r.data == Some(data) && r.errors == None
    ensures r.message == if FalsyString(message) then GeneralSuccess else message
    ensures !FalsyString(r.message)
  {
    Response(status, true, if FalsyString(message) then GetMessage("general_success") else message, Some(data), None)
  }

  /** An error envelope: `success` false, no data, and an `errors` key only
      when the error bag is not empty. */
  function ErrorResponse<D>(message: string, status: int := 500, errors: ErrorBag := {}): (r: Response<D>)
    ensures !r.success && r.status == status && r.message == message
    ensures r.data == None
    ensures r.errors.Some? <==> errors != {}
    ensures r.errors.Some? ==> r.errors.value == errors
  {
    Response(status, false, message, None, if errors != {} then Some(errors) else None)
  }

  /** A validation failure: always 422 with the error bag. Its default key
      "validation_error" is not in the catalog, so without a message of its
      own the text falls back to the general error. */
  function ValidationErrorResponse<D>(errors: ErrorBag, message: string := ""): (r: Response<D>)
    ensures !r.success && r.status == 422 && r.data == None
    ensures errors != {} ==> r.errors == Some(errors)
    ensures r.message == if FalsyString(message) then GeneralError else message
  {
    ErrorResponse(if FalsyString(message) then GetMessage("validation_error") else message, 422, errors)
  }

  /** Every catalog text survives a success envelope unchanged. */
  lemma {:induction false} CatalogMessageKept<D>(data: D, key: string, status: int)
    ensures SuccessResponse(data, GetMessage(key), status).message == GetMessage(key)
  {
  }
}
