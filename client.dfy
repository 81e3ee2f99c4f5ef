/**
 * The HTTP client's response record and its classification predicates. Sending a request is left
 * to an abstract `Network`: a total function from a request to a response, or None when the
 * transport fails (connection refused, timeout, TLS error, undecodable body), which is when the
 * client returns `HttpError`.
 */
module Client {
  import opened Wrappers
  import opened Text
  import opened Types

  /** A 16-bit status code. */
  newtype u16 = x: int | 0 <= x < 0x1_0000

  /**
   * Header names are stored as the client renders them, lower-case; `responseTime` is in
   * nanoseconds.
   */
  datatype HttpResponse = HttpResponse(
    status: u16,
    headers: map<string, string>,
    body: string,
    responseTime: nat)

  datatype Request = Request(
    httpMethod: HttpMethod,
    url: string,
    headers: map<string, string>,
    body: Option<string>)

  type Network = Request -> Option<HttpResponse>

  /** `HttpClient::get`: a GET with no extra headers and no body. */
  function Get(net: Network, url: string): Option<HttpResponse> {
    net(Request(GET, url, map[], None))
  }

  predicate IsSuccess(r: HttpResponse) {
    200 <= r.status < 300
  }

  predicate IsRedirect(r: HttpResponse) {
    300 <= r.status < 400
  }

  predicate IsClientError(r: HttpResponse) {
    400 <= r.status < 500
  }

  predicate IsServerError(r: HttpResponse) {
    500 <= r.status < 600
  }

  /** The classes of section 15 of RFC 9110, by the first digit of the status. */
  datatype StatusClass = Informational | Successful | Redirection | ClientErr | ServerErr | Unclassified

  function ClassOf(status: u16): StatusClass {
    match status as int / 100
    case 1 => Informational
    case 2 => Successful
    case 3 => Redirection
    case 4 => ClientErr
    case 5 => ServerErr
    case _ => Unclassified
  }

  /**
   * Each range predicate holds exactly when the status's first digit names its class; so at most
   * one of them holds, and a status below 200 or from 600 up satisfies none.
   */
  lemma ClassificationAgrees(r: HttpResponse)
    ensures IsSuccess(r) <==> ClassOf(r.status) == Successful
    ensures IsRedirect(r) <==> ClassOf(r.status) == Redirection
    ensures IsClientError(r) <==> ClassOf(r.status) == ClientErr
    ensures IsServerError(r) <==> ClassOf(r.status) == ServerErr
  {
  }

  lemma ClassesExclusive(r: HttpResponse)
    ensures IsSuccess(r) ==> !IsRedirect(r) && !IsClientError(r) && !IsServerError(r)
    ensures IsRedirect(r) ==> !IsClientError(r) && !IsServerError(r)
    ensures IsClientError(r) ==> !IsServerError(r)
    ensures (r.status < 200 || r.status >= 600) ==>
      !IsSuccess(r) && !IsRedirect(r) && !IsClientError(r) && !IsServerError(r)
  {
    ClassificationAgrees(r);
  }

  /** `content_type`: the value stored under "content-type", if any. */
  function ContentType(r: HttpResponse): (ct: Option<string>)
    ensures ct.Some? <==> "content-type" in r.headers
    ensures ct.Some? ==> ct.value == r.headers["content-type"]
  {
    if "content-type" in r.headers then Some(r.headers["content-type"]) else None
  }

  predicate ContentTypeHas(r: HttpResponse, media: string) {
    match ContentType(r)
    case Some(ct) => Contains(ct, media)
    case None => false
  }

  predicate IsHtml(r: HttpResponse) {
    ContentTypeHas(r, "text/html")
  }

  predicate IsJson(r: HttpResponse) {
    ContentTypeHas(r, "application/json")
  }

  /** Without a content-type header a response is neither HTML nor JSON. */
  lemma NoContentTypeNeither(r: HttpResponse)
    requires "content-type" !in r.headers
    ensures !IsHtml(r) && !IsJson(r)
  {
  }

  /** A header value that mentions the media type anywhere (with parameters, say) counts. */
  lemma HtmlWithCharset(r: HttpResponse)
    requires "content-type" in r.headers && r.headers["content-type"] == "text/html; charset=utf-8"
    ensures IsHtml(r) && !IsJson(r)
  {
    assert OccursAt(r.headers["content-type"], "text/html", 0);
    var ct := r.headers["content-type"];
    forall i | 0 <= i <= |ct| - 16 ensures !OccursAt(ct, "application/json", i) {
      assert ct[i] != 'a';
    }
  }
}
