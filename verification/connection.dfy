/**
  The one-shot exchange that trades an app token for a single-use WebSocket URL
  (`open_connection`). The HTTP request itself is I/O: the model produces the
  request the client sends and takes the server's reply as a parameter.
 */
module Connection {
  import opened Wrappers

  const OpenEndpoint: string := "https://slack.com/api/apps.connections.open"
  const BearerPrefix: string := "Bearer "

  /** A failure of the HTTP client (DNS, TLS, timeout, undecodable body); opaque. */
  datatype HttpError = HttpError(detail: string)

  /** The decoded JSON body of the open-connection call. */
  datatype ApiResponse = ApiResponse(ok: bool, url: Option<string>, error: Option<string>)

  /** What the HTTP client hands back for the request. */
  datatype HttpReply = Unreachable(failure: HttpError) | Received(response: ApiResponse)

  datatype Request = Post(endpoint: string, authorization: string)

  /** The request sent and the value `open_connection` returns. */
  datatype Exchange = Exchange(request: Request, result: Result<Result<string, Option<string>>, HttpError>)

  /** The Authorization header value for a token. */
  function BearerHeader(token: string): (h: string)
    ensures |h| == |token| + 7
    ensures h[..7] == "Bearer " && h[7..] == token
  {
    BearerPrefix + token
  }

  /** Recovers the token from an Authorization value, if it is a bearer value. */
  function BearerToken(header: string): (t: Option<string>)
    ensures t.Some? <==> |header| >= 7 && header[..7] == "Bearer "
    ensures t.Some? ==> t.value == header[7..]
  {
    if |header| >= |BearerPrefix| && header[..|BearerPrefix|] == BearerPrefix then
      Some(header[|BearerPrefix|..])
    else
      None
  }

  /** The header carries the token verbatim: it can be read back out. */
  lemma BearerRoundTrip(token: string)
    ensures BearerToken(BearerHeader(token)) == Some(token)
  {
  }

  /** Every bearer value is the header of exactly the token it carries. */
  lemma BearerTokenInverse(header: string)
    ensures BearerToken(header).Some? ==> BearerHeader(BearerToken(header).value) == header
  {
    if BearerToken(header).Some? {
      assert header == header[..7] + header[7..];
    }
  }

  /** Distinct tokens give distinct headers. */
  lemma BearerHeaderInjective(a: string, b: string)
    ensures BearerHeader(a) == BearerHeader(b) ==> a == b
  {
    if BearerHeader(a) == BearerHeader(b) {
      BearerRoundTrip(a);
      BearerRoundTrip(b);
    }
  }

  /**
    A successful reply always names a URL. The client treats a success without
    one as a bug on the server side and panics, so callers must exclude it.
   */
  predicate WellFormedReply(reply: HttpReply)
  {
    reply.Received? && reply.response.ok ==> reply.response.url.Some?
  }

  /** Maps the API response to the URL on success, or the reported error string. */
  function Classify(response: ApiResponse): (c: Result<string, Option<string>>)
    requires response.ok ==> response.url.Some?
    ensures c.Ok? <==> response.ok
    ensures c.Ok? ==> Some(c.value) == response.url
    ensures c.Err? ==> c.error == response.error
  {
    if response.ok then Ok(response.url.value) else Err(response.error)
  }

  /** The API response that reports a given classification. */
  function ResponseFor(c: Result<string, Option<string>>): ApiResponse
  {
    match c
    case Ok(url) => ApiResponse(true, Some(url), None)
    case Err(error) => ApiResponse(false, None, error)
  }

  /** Every classification is reachable, and Classify recovers it exactly. */
  lemma ClassifyResponseFor(c: Result<string, Option<string>>)
    ensures Classify(ResponseFor(c)) == c
  {
  }

  /**
    Classify looks only at the fields its branch needs: an error string on a
    success and a URL on a failure are both dropped.
   */
  lemma ClassifyIgnoresOtherField(response: ApiResponse, url: Option<string>, error: Option<string>)
    requires response.ok ==> response.url.Some?
    ensures response.ok ==> Classify(response) == Classify(response.(error := error))
    ensures !response.ok ==> Classify(response) == Classify(response.(url := url))
  {
  }

  /** `open_connection`: posts the bearer token and classifies the reply. */
  function OpenConnection(token: string, reply: HttpReply): (x: Exchange)
    requires WellFormedReply(reply)
    ensures x.request.endpoint == OpenEndpoint
    ensures BearerToken(x.request.authorization) == Some(token)
    ensures x.result.Err? <==> reply.Unreachable?
    ensures x.result.Err? ==> x.result.error == reply.failure
    ensures x.result.Ok? ==> x.result.value.Ok? == reply.response.ok
    ensures reply.Received? && reply.response.ok ==> x.result == Ok(Ok(reply.response.url.value))
    ensures reply.Received? && !reply.response.ok ==> x.result == Ok(Err(reply.response.error))
  {
    var request := Post(OpenEndpoint, BearerHeader(token));
    BearerRoundTrip(token);
    match reply
    case Unreachable(e) => Exchange(request, Err(e))
    case Received(response) => Exchange(request, Ok(Classify(response)))
  }
}
