/**
 * The engine's error values (src/error.ts): the `KonaError` names, the table
 * of HTTP status codes and the `ApplicationError` constructor, plus the
 * native JavaScript exceptions (TypeError, ReferenceError, Error) that the
 * modelled code can raise.
 */
module Errors {
  import opened Js

  /** The values of the `KonaError` enumeration. */
  const KonaErrors: seq<string> := [
    "validation_error", "invalid_request", "already_exists", "invalid_token",
    "auth_error", "insufficient_scope", "not_found", "unsupported_method",
    "system_error", "configuration_error", "service_error"
  ]

  /** The `codes` table: the HTTP status of each known error name. */
  function CodeOf(error: string): Option<int> {
    match error
    case "validation_error" => Some(400)
    case "invalid_request" => Some(400)
    case "already_exists" => Some(400)
    case "invalid_token" => Some(401)
    case "auth_error" => Some(403)
    case "insufficient_scope" => Some(403)
    case "not_found" => Some(404)
    case "unsupported_method" => Some(405)
    case "data_error" => Some(409)
    case "system_error" => Some(500)
    case "configuration_error" => Some(500)
    case "service_error" => Some(502)
    case _ => None
  }

  /** An `ApplicationError`; "" stands for a missing description. */
  datatype ApplicationError = ApplicationError(error: string, code: int, description: string, trace: string)

  /** A thrown value: an `ApplicationError` or a native exception. */
  datatype Exception =
    | App(err: ApplicationError)
    | Native(name: string, message: string)

  datatype Result<T> = Ok(value: T) | Err(ex: Exception)

  /**
   * `new ApplicationError(error, description, trace, originalError)`, the
   * original error being given by its message.  The status code is looked up
   * in the table, with 500 for unknown names.
   */
  function NewError(error: string, description: string, trace: string, original: Option<string>): (e: ApplicationError)
    ensures e.error == error && e.trace == trace
    ensures CodeOf(error).Some? ==> e.code == CodeOf(error).value
    ensures CodeOf(error).None? ==> e.code == 500
    ensures description != "" ==> e.description == description
    ensures description == "" && original.Some? ==> e.description == original.value
    ensures description == "" && original.None? ==> e.description == ""
  {
    var code := if CodeOf(error).Some? then CodeOf(error).value else 500;
    var desc := if description == "" && original.Some? then original.value else description;
    ApplicationError(error, code, desc, trace)
  }

  /** A rejection with a fresh `ApplicationError` and no original error. */
  function Fail(error: string, description: string, trace: string): Exception {
    App(NewError(error, description, trace, None))
  }

  /** The exception is an `ApplicationError` named `error`. */
  predicate IsError(ex: Exception, error: string) {
    ex.App? && ex.err.error == error
  }

  /** The exception carries this trace tag (the code's error identifier). */
  predicate HasTrace(ex: Exception, trace: string) {
    ex.App? && ex.err.trace == trace
  }

  const TypeError: Exception := Native("TypeError", "")

  /** The thrown object as a JavaScript value (as stored in a job's `error`). */
  function ExceptionValue(ex: Exception): JsValue {
    match ex
    case App(e) => Obj(map["error" := Str(e.error), "code" := Int(e.code),
                           "error_description" := Str(e.description), "trace" := Str(e.trace)])
    case Native(n, m) => Obj(map["name" := Str(n), "message" := Str(m)])
  }

  /** Every `KonaError` value has an entry in the table, and each entry is an HTTP error status. */
  lemma EveryNameHasCode()
    ensures forall k :: 0 <= k < |KonaErrors| ==> CodeOf(KonaErrors[k]).Some?
    ensures forall k :: 0 <= k < |KonaErrors| ==> 400 <= CodeOf(KonaErrors[k]).value <= 599
  {
    forall k | 0 <= k < |KonaErrors|
      ensures CodeOf(KonaErrors[k]).Some? && 400 <= CodeOf(KonaErrors[k]).value <= 599
    {
      var n := KonaErrors[k];
      assert n in {"validation_error", "invalid_request", "already_exists", "invalid_token",
                   "auth_error", "insufficient_scope", "not_found", "unsupported_method",
                   "system_error", "configuration_error", "service_error"};
    }
  }

  /**
   * The misspelt name used by the fallback error responder is not in the
   * table, so the response still carries status 500.
   */
  lemma MisspeltSystemError()
    ensures NewError("sytem_error", "Internal system error ocurred, administrator was notified", "sys_int_helper", None).code == 500
    ensures NewError("sytem_error", "", "", None).code == NewError("system_error", "", "", None).code
  {
  }

  /** The client-error names map to 4xx and the server-side ones to 5xx. */
  lemma CodeFamilies(error: string)
    ensures CodeOf(error).Some? && CodeOf(error).value < 500 <==>
      error in {"validation_error", "invalid_request", "already_exists", "invalid_token",
                "auth_error", "insufficient_scope", "not_found", "unsupported_method", "data_error"}
    ensures CodeOf(error) == Some(403) <==> error in {"auth_error", "insufficient_scope"}
  {
  }
}
