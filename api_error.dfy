/**
 * The error record every failure path of the authentication code throws
 * (`class ApiError extends Error`). The record is built once from the
 * constructor's arguments and their defaults and never changed afterwards.
 */
module ApiErrors {
  import opened Wrappers

  /** JavaScript's `null`: the only value the `data` field ever holds. */
  datatype Null = Null

  /**
   * The fields an ApiError carries. `statck` keeps the source's spelling: it is
   * the caller-supplied stack text, absent when the runtime captured its own trace.
   */
  datatype ApiError = ApiError(
    statusCode: int,
    message: string,
    data: Null,
    success: bool,
    errors: seq<string>,
    statck: Option<string>)

  /** The message used when the constructor is called without one. */
  const DefaultMessage: string := "Something went wrong"

  /**
   * `new ApiError(statusCode, message?, errors?, statck?)`. An omitted argument
   * is `None`; JavaScript's default parameters then apply.
   */
  function NewApiError(statusCode: int, message: Option<string>, errors: Option<seq<string>>,
                       statck: Option<string>): (e: ApiError)
    ensures e.statusCode == statusCode
    ensures e.data == Null && !e.success
    ensures message.Some? ==> e.message == message.value
    ensures errors.Some? ==> e.errors == errors.value
  {
    var msg := if message.Some? then message.value else DefaultMessage;
    var errs := if errors.Some? then errors.value else [];
    var stack := if statck.Some? && statck.value != "" then statck else None;
    ApiError(statusCode, msg, Null, false, errs, stack)
  }

  /** Omitting an argument is the same as passing its default ("Something went wrong", [], ""). */
  lemma OmittedArgumentsTakeDefaults(statusCode: int)
    ensures NewApiError(statusCode, None, None, None)
         == NewApiError(statusCode, Some(DefaultMessage), Some([]), Some(""))
    ensures NewApiError(statusCode, None, None, None).message == DefaultMessage
    ensures NewApiError(statusCode, None, None, None).errors == []
  {
  }

  /** The caller's stack text is stored exactly when it is a non-empty string. */
  lemma StackStoredOnlyWhenGiven(statusCode: int, message: Option<string>, errors: Option<seq<string>>,
                                 statck: Option<string>)
    ensures NewApiError(statusCode, message, errors, statck).statck.Some?
        <==> statck.Some? && statck.value != ""
    ensures NewApiError(statusCode, message, errors, statck).statck.Some?
        ==> NewApiError(statusCode, message, errors, statck).statck == statck
  {
  }

  /** The error the code throws most often: a status and a message, everything else defaulted. */
  function Error(statusCode: int, message: string): (e: ApiError)
    ensures e.statusCode == statusCode && e.message == message
    ensures e.errors == [] && e.statck == None && !e.success
  {
    NewApiError(statusCode, Some(message), None, None)
  }
}
