/**
 * The request, response and network values the worker handles. Real fetches
 * are not modelled: what the network would answer is an input.
 */
module Http {
  import opened Wrappers

  /** `Request.mode` as the Fetch standard names it. */
  datatype Mode = Navigate | SameOrigin | NoCors | Cors | WebSocket

  /**
   * An intercepted request: its URL (the key it is cached and matched under)
   * and the pathname and mode the handler inspects.
   */
  datatype Request = Request(url: string, pathname: string, mode: Mode)

  datatype Response = Response(status: nat, body: string)

  /** What one network fetch yields: a response of any status, or a rejection. */
  datatype NetOutcome = Received(response: Response) | Failed

  /**
   * What the page receives when the handler answers with the fetch itself:
   * the response, or (None) a network error when the fetch rejects.
   */
  function AsReply(net: NetOutcome): (reply: Option<Response>)
    ensures reply.Some? <==> net.Received?
    ensures reply.Some? ==> reply.value == net.response
  {
    match net
    case Received(r) => Some(r)
    case Failed => None
  }
}
