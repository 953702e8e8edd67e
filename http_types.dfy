/**
 * The value types of the small HTTP server: request methods, response
 * statuses with their reason phrases, requests and responses.
 */
module HttpTypes {
  import opened Wrappers
  import opened PyText

  /** The request methods the server knows; the enum value is the name. */
  datatype HTTPMethod = GET | HEAD

  /** `str(method)`: the value of the member, which is its name. */
  function MethodText(m: HTTPMethod): (s: string)
    ensures s != [] && IsWord(s)
  {
    match m
    case GET => "GET"
    case HEAD => "HEAD"
  }

  /** `HTTPMethod[name]`: lookup by exact, case-sensitive member name; `None` for the `KeyError`. */
  function LookupMethod(name: string): (r: Option<HTTPMethod>)
    ensures r.Some? <==> name == "GET" || name == "HEAD"
    ensures r.Some? ==> MethodText(r.value) == name
  {
    if name == "GET" then Some(GET) else if name == "HEAD" then Some(HEAD) else None
  }

  lemma MethodRoundTrip(m: HTTPMethod)
    ensures LookupMethod(MethodText(m)) == Some(m)
  {
  }

  /** The response statuses, in declaration order. */
  datatype HTTPStatus =
    | OK
    | BAD_REQUEST
    | FORBIDDEN
    | NOT_FOUND
    | METHOD_NOT_ALLOWED
    | REQUEST_TIMEOUT
    | ENTITY_TOO_LARGE
    | UNSUPPORTED_MEDIA_TYPE
    | INTERNAL_SERVER_ERROR
    | NOT_IMPLEMENTED
    | HTTP_VERSION_NOT_SUPPORTED

  /** The numeric code of a status. */
  function Code(s: HTTPStatus): (c: nat)
    ensures 200 <= c <= 505
  {
    match s
    case OK => 200
    case BAD_REQUEST => 400
    case FORBIDDEN => 403
    case NOT_FOUND => 404
    case METHOD_NOT_ALLOWED => 405
    case REQUEST_TIMEOUT => 408
    case ENTITY_TOO_LARGE => 413
    case UNSUPPORTED_MEDIA_TYPE => 415
    case INTERNAL_SERVER_ERROR => 500
    case NOT_IMPLEMENTED => 501
    case HTTP_VERSION_NOT_SUPPORTED => 505
  }

  /** The reason phrase of a status. */
  function Reason(s: HTTPStatus): (r: string)
    ensures r != []
  {
    match s
    case OK => "OK"
    case BAD_REQUEST => "Bad Request"
    case FORBIDDEN => "Forbidden"
    case NOT_FOUND => "Not Found"
    case METHOD_NOT_ALLOWED => "Method Not Allowed"
    case REQUEST_TIMEOUT => "Request Timeout"
    case ENTITY_TOO_LARGE => "Entity Too Large"
    case UNSUPPORTED_MEDIA_TYPE => "Unsupported Media Type"
    case INTERNAL_SERVER_ERROR => "Internal Server Error"
    case NOT_IMPLEMENTED => "Not Implemented"
    case HTTP_VERSION_NOT_SUPPORTED => "HTTP Version Not Supported"
  }

  /** No two statuses share a code. */
  lemma CodesDistinct(a: HTTPStatus, b: HTTPStatus)
    ensures Code(a) == Code(b) ==> a == b
  {
  }

  /** A three-digit number is written with three digits. */
  lemma ThreeDigits(n: nat)
    requires 100 <= n < 1000
    ensures |NatToText(n)| == 3
  {
    assert NatToText(n) == NatToText(n / 10) + [DigitChar(n % 10)];
    assert NatToText(n / 10) == NatToText(n / 100) + [DigitChar((n / 10) % 10)];
  }

  /** `str(status)`: the three-digit code, one space, the reason phrase. */
  function StatusText(s: HTTPStatus): (r: string)
    ensures |r| == 4 + |Reason(s)| && r[3] == ' ' && r[4..] == Reason(s)
    ensures r[..3] == IntToText(Code(s))
  {
    ThreeDigits(Code(s));
    var digits := NatToText(Code(s));
    var r := digits + " " + Reason(s);
    assert r[..3] == digits;
    r
  }

  /** The first three characters of `str(status)` read back as its code. */
  lemma StatusCodeReadBack(s: HTTPStatus)
    ensures ParseInt(StatusText(s)[..3]) == Some(Code(s) as int)
  {
    IntToTextRoundTrip(Code(s));
  }

  /**
   * A response body. The field is declared as `bytes`, but the handlers
   * also store `str` values in it, and Python keeps whichever it is given.
   */
  datatype Body = Text(text: string) | Bytes(data: seq<byte>)

  /** A response: status, body and content type. */
  datatype HTTPResponse = HTTPResponse(status: HTTPStatus, body: Body, contentType: string)

  /** A parsed request: the method and the target exactly as the request line gives it. */
  datatype HTTPRequest = HTTPRequest(httpMethod: HTTPMethod, target: string)

  /** `HTTPResponse.error(status)`: a plain-text response whose body is `str(status)` in UTF-8. */
  function ErrorResponse(s: HTTPStatus): (r: HTTPResponse)
    ensures r.status == s && r.contentType == "text/plain"
    ensures r.body.Bytes? && r.body.data == Utf8(StatusText(s)) && |r.body.data| >= 4 + |Reason(s)|
  {
    HTTPResponse(s, Bytes(Utf8(StatusText(s))), "text/plain")
  }
}
