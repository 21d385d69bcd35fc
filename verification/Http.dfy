/** A tracked HTTP request (src/handler/http.rs), reduced to the fields the handlers update. */
module Http {
  import opened Options

  datatype RequestId = RequestId(raw: string)
  /** The id of a paused request. The browser uses the same id for authentication challenges of that request. */
  datatype FetchId = FetchId(raw: string)
  datatype FrameId = FrameId(raw: string)
  /** The payload of a response; nothing in the handlers looks inside it. */
  datatype HttpResponse = HttpResponse(payload: string)

  datatype HttpRequest = HttpRequest(
    requestId: RequestId,
    fromMemoryCache: bool,
    failureText: Option<string>,
    interceptionId: Option<FetchId>,
    response: Option<HttpResponse>,
    frame: Option<FrameId>,
    allowInterception: bool,
    redirectChain: seq<HttpRequest>)

  function NewRequest(id: RequestId, frame: Option<FrameId>, interception: Option<FetchId>,
                      allow: bool, chain: seq<HttpRequest>): HttpRequest {
    HttpRequest(id, false, None, interception, None, frame, allow, chain)
  }
}
