/** How the client screens see a request end: what the network delivered, and how axios turns
    that into a resolved response or a thrown error according to the request's
    `validateStatus` rule. */
module Http {
  import opened Text
  import opened Wire

  /** A reply from the server, or a failure before any reply (refused connection, timeout,
      DNS failure, ...), with the error's `code` and `message`. */
  datatype Delivery =
    | Delivered(reply: Reply)
    | NoReply(code: Option<string>, message: string)

  /** The error axios rejects with: `err.code`, `err.message`, and `err.response.data`. */
  datatype AxiosError = AxiosError(code: Option<string>, message: string, response: Option<Body>)

  datatype Settled =
    | Resolved(status: nat, data: Body)
    | Thrown(err: AxiosError)

  /** axios's default `validateStatus`: only 2xx resolves. */
  predicate DefaultAccepts(status: nat) {
    200 <= status < 300
  }

  /** The code axios gives a rejected response: `ERR_BAD_REQUEST` for 4xx and
      `ERR_BAD_RESPONSE` for 5xx. */
  function StatusErrorCode(status: nat): Option<string> {
    if 400 <= status < 500 then Some("ERR_BAD_REQUEST")
    else if 500 <= status < 600 then Some("ERR_BAD_RESPONSE")
    else None
  }

  /** The message of a rejected response. */
  function StatusMessage(status: nat): string {
    "Request failed with status code " + NatToString(status)
  }

  /** A delivered reply resolves when `accepts` says so and is thrown, with the reply attached,
      otherwise; no reply is always thrown, with nothing attached. */
  function Settle(d: Delivery, accepts: nat -> bool): (s: Settled)
    ensures d.Delivered? && accepts(d.reply.status) <==> s.Resolved?
    ensures s.Resolved? ==> s.status == d.reply.status && s.data == d.reply.body
    ensures s.Thrown? ==> (s.err.response.Some? <==> d.Delivered?)
    ensures s.Thrown? && d.Delivered? ==> s.err.response == Some(d.reply.body)
  {
    match d
    case Delivered(r) =>
      if accepts(r.status) then Resolved(r.status, r.body)
      else Thrown(AxiosError(StatusErrorCode(r.status), StatusMessage(r.status), Some(r.body)))
    case NoReply(code, message) => Thrown(AxiosError(code, message, None))
  }
}
