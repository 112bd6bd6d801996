/**
 * The server's error value and the HTTP responses it turns into.
 */
module WebErrors {
  import opened Wrappers

  /** The error object the request handlers pass to the error middleware. */
  datatype WebAppError = WebAppError(status: int, message: string)

  /** A response: status code, the `Location`/`Content-Location` header if any, and a body. */
  datatype Response<B> = Response(status: int, location: Option<string>, body: Body<B>)

  datatype Body<B> = Text(text: string) | Data(data: B)

  /**
   * `new WebAppError(status, message)`: the status is kept and the message,
   * never empty, is the given text ended by a newline.
   */
  function MakeError(status: int, message: string): (e: WebAppError)
    ensures e.status == status
    ensures |e.message| > 0 && e.message[|e.message| - 1] == '\n'
    ensures e.message[..|e.message| - 1] == message
  {
    WebAppError(status, message + "\n")
  }

  /**
   * `databaseError(err)`: the database's own error text is only logged; the
   * client sees a fixed 500 message.
   */
  function DatabaseError(detail: string): (e: WebAppError)
    ensures e == MakeError(500, "database error")
  {
    MakeError(500, "database error")
  }

  /**
   * `handleWebAppError`: every error becomes a text response with a status
   * and a non-empty body; the error's own status and message are kept when
   * it has them.
   */
  function HandleWebAppError<B>(e: WebAppError): (r: Response<B>)
    ensures r.location.None? && r.body.Text? && |r.body.text| > 0
    ensures r.status != 0
    ensures e.status != 0 ==> r.status == e.status
    ensures e.message != "" ==> r.body.text == e.message
  {
    Response(if e.status == 0 then 500 else e.status, None,
             Text(if e.message == "" then "unknown server error" else e.message))
  }

  /** An error made with a status reaches the client with that status and its message plus a newline. */
  lemma MadeErrorResponse<B>(status: int, message: string)
    requires status != 0
    ensures HandleWebAppError<B>(MakeError(status, message)) == Response(status, None, Text(message + "\n"))
  {
  }

  /** Every storage failure reaches the client as the same response, whatever the cause. */
  lemma DatabaseErrorHidesDetail<B>(d1: string, d2: string)
    ensures HandleWebAppError<B>(DatabaseError(d1)) == HandleWebAppError<B>(DatabaseError(d2))
    ensures HandleWebAppError<B>(DatabaseError(d1)) == Response(500, None, Text("database error\n"))
  {
  }
}
