/**
 * How the frontend turns a failed request into a message and decides whether to retry
 * (frontend/src/utils/errorHandler.ts). An error value is an axios error (with or without a
 * response), a plain `Error`, or anything else; the messages are the module's fixed texts.
 */
module ErrorHandler {
  import opened Common

  const BadRequestText: string := "잘못된 요청입니다."
  const UnauthorizedText: string := "인증이 필요합니다."
  const ForbiddenText: string := "접근 권한이 없습니다."
  const NotFoundText: string := "요청한 데이터를 찾을 수 없습니다."
  const ServerErrorText: string := "서버 오류가 발생했습니다."
  const UnknownText: string := "알 수 없는 오류가 발생했습니다."

  /** The server's response: its status and the `message` field of its body, if any. */
  datatype Response = Response(status: Option<int>, bodyMessage: Option<string>)

  /** A thrown value, as far as the helpers look at it. */
  datatype ErrorValue =
    | AxiosError(response: Option<Response>, code: Option<string>, message: string)
    | PlainError(message: string)
    | Other

  /** `responseData?.message`, when present and not empty. */
  function ServerMessage(response: Option<Response>): Option<string>
  {
    if response.Some? && response.value.bodyMessage.Some? && response.value.bodyMessage.value != ""
    then response.value.bodyMessage else None
  }

  /** The fixed text for a status the switch names. */
  function StatusText(status: Option<int>): Option<string>
  {
    if status == Some(400) then Some(BadRequestText)
    else if status == Some(401) then Some(UnauthorizedText)
    else if status == Some(403) then Some(ForbiddenText)
    else if status == Some(404) then Some(NotFoundText)
    else if status == Some(500) then Some(ServerErrorText)
    else None
  }

  /** `getErrorMessage`. */
  function GetErrorMessage(e: ErrorValue): string
  {
    match e
    case AxiosError(response, _, message) =>
      if ServerMessage(response).Some? then ServerMessage(response).value
      else
        var status := if response.Some? then response.value.status else None;
        if StatusText(status).Some? then StatusText(status).value
        else if message != "" then message
        else UnknownText
    case PlainError(message) => message
    case Other => UnknownText
  }

  /**
   * A server message wins; then 400, 401, 403, 404 and 500 get their fixed texts; then the error's own
   * message, or the unknown-error text when it is empty. A plain error gives its message and
   * anything else the unknown-error text. The result is empty only when a plain error's
   * message is.
   */
  lemma GetErrorMessageSpec(e: ErrorValue)
    ensures e.AxiosError? && ServerMessage(e.response).Some? ==> GetErrorMessage(e) == ServerMessage(e.response).value
    ensures e.AxiosError? && ServerMessage(e.response).None? && e.response.Some? ==>
              var status := e.response.value.status;
              && (status == Some(400) ==> GetErrorMessage(e) == BadRequestText)
              && (status == Some(401) ==> GetErrorMessage(e) == UnauthorizedText)
              && (status == Some(403) ==> GetErrorMessage(e) == ForbiddenText)
              && (status == Some(404) ==> GetErrorMessage(e) == NotFoundText)
              && (status == Some(500) ==> GetErrorMessage(e) == ServerErrorText)
    ensures e.AxiosError? && ServerMessage(e.response).None?
            && (e.response.None? || e.response.value.status !in {Some(400), Some(401), Some(403), Some(404), Some(500)})
            ==> GetErrorMessage(e) == (if e.message != "" then e.message else UnknownText)
    ensures e.PlainError? ==> GetErrorMessage(e) == e.message
    ensures e.Other? ==> GetErrorMessage(e) == UnknownText
    ensures GetErrorMessage(e) == "" <==> e.PlainError? && e.message == ""
  {
  }

  /** `isNetworkError`: an axios error with no response that is not a timeout. */
  function IsNetworkError(e: ErrorValue): bool
  {
    e.AxiosError? && e.response.None? && e.code != Some("ECONNABORTED")
  }

  /** `isRetryableError`: a server-side status (5xx and above) or a network error. */
  function IsRetryableError(e: ErrorValue): bool
  {
    if e.AxiosError? then
      var status := if e.response.Some? then e.response.value.status else None;
      (status.Some? && status.value != 0 && status.value >= 500) || IsNetworkError(e)
    else false
  }

  /**
   * Only axios errors are retried: those whose response status is 500 or more, and those that
   * got no response at all, unless they timed out. A client error (4xx) is never retried, and a
   * network error never has a status to show.
   */
  lemma RetrySpec(e: ErrorValue)
    ensures IsRetryableError(e) <==>
              e.AxiosError?
              && ((e.response.Some? && e.response.value.status.Some? && e.response.value.status.value >= 500)
                  || (e.response.None? && e.code != Some("ECONNABORTED")))
    ensures (e.AxiosError? && e.response.Some? && e.response.value.status.Some?
             && 400 <= e.response.value.status.value < 500) ==> !IsRetryableError(e)
    ensures IsNetworkError(e) ==> IsRetryableError(e) && GetErrorMessage(e) == (if e.message != "" then e.message else UnknownText)
  {
  }
}
