/**
 * One exchange of the small HTTP server: reading the request line from the
 * bytes a client sends, the reply to a parsed request, and the text layout
 * of every response.
 */
module Httpd {
  import opened Wrappers
  import opened PyText
  import opened HttpTypes

  /** The most bytes one `recv` call takes from the client. */
  const REQUEST_MAX_SIZE: nat := 8 * 1024

  /** The only protocol version the server accepts. */
  const HTTP_VERSION: string := "HTTP/1.1"

  /**
   * The byte counts one `recv(REQUEST_MAX_SIZE)` may return when the client
   * has sent `sent`: TCP hands over any non-empty prefix, never more than
   * the buffer, and nothing only once the client has closed without
   * sending.
   */
  predicate RecvLength(sent: seq<byte>, n: nat) {
    n <= |sent| && n <= REQUEST_MAX_SIZE && (sent != [] ==> n >= 1)
  }

  /** `conn.recv(REQUEST_MAX_SIZE)` returning `n` bytes: the first `n` bytes the client sent. */
  function Receive(sent: seq<byte>, n: nat): (data: seq<byte>)
    requires RecvLength(sent, n)
    ensures |data| <= REQUEST_MAX_SIZE && |data| == n && data == sent[..|data|]
    ensures sent != [] ==> data != []
  {
    sent[..n]
  }

  /** A CR LF pair starts at position `i`. */
  predicate CrlfAt(data: seq<byte>, i: nat) {
    i + 1 < |data| && data[i] == 13 && data[i + 1] == 10
  }

  /** The first CR LF at or after `from`, or `|data|` when there is none. */
  function FindCrlf(data: seq<byte>, from: nat): (i: nat)
    requires from <= |data|
    ensures from <= i <= |data|
    ensures forall k :: from <= k < i ==> !CrlfAt(data, k)
    ensures i < |data| ==> CrlfAt(data, i)
    decreases |data| - from
  {
    if from + 1 >= |data| then |data|
    else if CrlfAt(data, from) then from
    else FindCrlf(data, from + 1)
  }

  /** `data.partition(b"\r\n")[0]`: the bytes before the first CR LF, or all of them. */
  function RequestLineBytes(data: seq<byte>): (line: seq<byte>)
    ensures |line| <= |data| && line == data[..|line|]
    ensures forall k :: 0 <= k < |line| ==> !CrlfAt(data, k)
    ensures |line| < |data| ==> CrlfAt(data, |line|)
  {
    data[..FindCrlf(data, 0)]
  }

  /** The whitespace-separated tokens of the ISO-8859-1 request line. */
  function RequestWords(sent: seq<byte>, n: nat): (w: seq<string>)
    requires RecvLength(sent, n)
    ensures forall i :: 0 <= i < |w| ==> IsWord(w[i])
  {
    Words(Latin1Decode(RequestLineBytes(Receive(sent, n))))
  }

  /**
   * `parse_request`. `sent` is what the client sends, `None` when nothing
   * arrives before the socket timeout, and `n` how many of its bytes the
   * one `recv` returns; an `Err` carries the status of the
   * `HTTPException`. The version is checked before the method.
   */
  function ParseRequest(sent: Option<seq<byte>>, n: nat): (r: Result<HTTPRequest, HTTPStatus>)
    requires sent.Some? ==> RecvLength(sent.value, n)
    ensures sent.None? ==> r == Err(REQUEST_TIMEOUT)
    ensures sent.Some? ==>
      var w := RequestWords(sent.value, n);
      && (r == Err(BAD_REQUEST) <==> |w| != 3)
      && (r == Err(HTTP_VERSION_NOT_SUPPORTED) <==> |w| == 3 && w[2] != HTTP_VERSION)
      && (r == Err(METHOD_NOT_ALLOWED) <==> |w| == 3 && w[2] == HTTP_VERSION && LookupMethod(w[0]).None?)
      && (r.Ok? <==> |w| == 3 && w[2] == HTTP_VERSION && LookupMethod(w[0]).Some?)
      && (r.Ok? ==> |w| == 3 && MethodText(r.value.httpMethod) == w[0] && r.value.target == w[1])
  {
    match sent
    case None => Err(REQUEST_TIMEOUT)
    case Some(data) =>
      var w := RequestWords(data, n);
      if |w| != 3 then Err(BAD_REQUEST)
      else if w[2] != HTTP_VERSION then Err(HTTP_VERSION_NOT_SUPPORTED)
      else
        match LookupMethod(w[0])
        case None => Err(METHOD_NOT_ALLOWED)
        case Some(m) => Ok(HTTPRequest(m, w[1]))
  }

  /** No character of a word is a carriage return. */
  lemma WordHasNoCr(w: string)
    requires IsWord(w)
    ensures forall i :: 0 <= i < |w| ==> w[i] != '\r'
  {
  }

  /** The text of the request line a client writes for `m` and `target`. */
  function RequestLineText(m: HTTPMethod, target: string): (text: string)
    ensures text == MethodText(m) + " " + target + " " + HTTP_VERSION
  {
    var ws := [MethodText(m), target, HTTP_VERSION];
    assert Unwords(ws[1..][1..]) == HTTP_VERSION by { assert ws[1..][1..] == [HTTP_VERSION]; }
    assert Unwords(ws[1..]) == target + " " + HTTP_VERSION by { assert ws[1..][0] == target; }
    Unwords(ws)
  }

  /** The request line in ISO-8859-1, for a target whose characters all fit in one byte. */
  function RequestLineBytesOf(m: HTTPMethod, target: string): (line: seq<byte>)
    requires forall i :: 0 <= i < |target| ==> target[i] as int < 256
    ensures |line| == |MethodText(m)| + |target| + 10
  {
    var text := RequestLineText(m, target);
    assert forall i :: 0 <= i < |MethodText(m)| ==> MethodText(m)[i] as int < 256;
    assert forall i :: 0 <= i < |HTTP_VERSION| ==> HTTP_VERSION[i] as int < 256;
    assert forall i :: 0 <= i < |text| ==> text[i] as int < 256;
    Latin1Encode(text)
  }

  /**
   * A request line `<method> <target> HTTP/1.1`, sent in ISO-8859-1 and
   * ended by CR LF, parses back to that method and target, whatever follows
   * it, once the one `recv` has returned the whole line with its CR LF.
   */
  lemma ParseFormattedRequest(m: HTTPMethod, target: string, rest: seq<byte>, n: nat)
    requires IsWord(target) && forall i :: 0 <= i < |target| ==> target[i] as int < 256
    requires |MethodText(m)| + |target| + 12 <= n
    requires RecvLength(RequestLineBytesOf(m, target) + [13, 10] + rest, n)
    ensures ParseRequest(Some(RequestLineBytesOf(m, target) + [13, 10] + rest), n) == Ok(HTTPRequest(m, target))
  {
    var ws := [MethodText(m), target, HTTP_VERSION];
    var text := RequestLineText(m, target);
    var line := RequestLineBytesOf(m, target);
    var sent := line + [13, 10] + rest;
    LineWords(m, target);
    LineHasNoCr(m, target);
    LineBeforeCrlf(line, rest, n);
    Latin1RoundTrip(text);
    assert RequestWords(sent, n) == ws;
    MethodRoundTrip(m);
  }

  /**
   * The same bytes give different answers depending on how much the one
   * `recv` returns: `GET / HTTP/1.1` with its CR LF is a GET of `/` when
   * all of it arrives, but when only its first 8 bytes do, the line read
   * is `GET / HT` and the version is refused.
   */
  lemma SplitRequestLine()
    ensures var sent := RequestLineBytesOf(GET, "/") + [13, 10];
      && ParseRequest(Some(sent), |sent|) == Ok(HTTPRequest(GET, "/"))
      && ParseRequest(Some(sent), 8) == Err(HTTP_VERSION_NOT_SUPPORTED)
  {
    WholeLineRead(GET, "/");
    ShortLineRead();
  }

  /** A request line that arrives whole, CR LF included and nothing after it, parses back. */
  lemma {:induction false} WholeLineRead(m: HTTPMethod, target: string)
    requires IsWord(target) && forall i :: 0 <= i < |target| ==> target[i] as int < 256
    requires |MethodText(m)| + |target| + 12 <= REQUEST_MAX_SIZE
    ensures var sent := RequestLineBytesOf(m, target) + [13, 10];
      ParseRequest(Some(sent), |sent|) == Ok(HTTPRequest(m, target))
  {
    var line := RequestLineBytesOf(m, target);
    assert line + [13, 10] == line + [13, 10] + [];
    ParseFormattedRequest(m, target, [], |line| + 2);
  }

  lemma ShortLineRead()
    ensures ParseRequest(Some(RequestLineBytesOf(GET, "/") + [13, 10]), 8) == Err(HTTP_VERSION_NOT_SUPPORTED)
  {
    PartialLineWords(GET, "/", [13, 10], 8);
    ShortLineText(RequestLineText(GET, "/"));
    ShortLineWords();
  }

  /**
   * When the one `recv` stops inside a request line, the words parsed are
   * those of the line's first `k` characters.
   */
  lemma {:induction false} PartialLineWords(m: HTTPMethod, target: string, rest: seq<byte>, k: nat)
    requires IsWord(target) && forall i :: 0 <= i < |target| ==> target[i] as int < 256
    requires k <= |RequestLineBytesOf(m, target)| && RecvLength(RequestLineBytesOf(m, target) + rest, k)
    ensures RequestWords(RequestLineBytesOf(m, target) + rest, k) == Words(RequestLineText(m, target)[..k])
  {
    var text := RequestLineText(m, target);
    var line := RequestLineBytesOf(m, target);
    LineHasNoCr(m, target);
    var data := Receive(line + rest, k);
    assert data == line[..k];
    NoCrWhole(data);
    EncodedPrefix(text, k);
  }

  /** The first 8 characters of `GET / HTTP/1.1`. */
  lemma {:induction false} ShortLineText(text: string)
    requires text == "GET" + " " + "/" + " " + HTTP_VERSION
    ensures text[..8] == "GET / HT"
  {
  }

  /** `"GET / HT".split()` gives three words, the last of them not the version. */
  lemma ShortLineWords()
    ensures Words("GET / HT") == ["GET", "/", "HT"]
  {
    var ws := ["GET", "/", "HT"];
    assert Unwords(ws[1..][1..]) == "HT";
    assert Unwords(ws) == "GET / HT";
    WordsUnwords(ws);
  }

  /** Bytes without a carriage return are one request line. */
  lemma {:induction false} NoCrWhole(data: seq<byte>)
    requires forall k :: 0 <= k < |data| ==> data[k] != 13
    ensures RequestLineBytes(data) == data
  {
  }

  /** The first `k` bytes of an ISO-8859-1 text read back as its first `k` characters. */
  lemma {:induction false} EncodedPrefix(text: string, k: nat)
    requires forall i :: 0 <= i < |text| ==> text[i] as int < 256
    requires k <= |text|
    ensures Latin1Decode(Latin1Encode(text)[..k]) == text[..k]
  {
    var t := text[..k];
    assert Latin1Encode(text)[..k] == Latin1Encode(t);
    Latin1RoundTrip(t);
  }

  /** The encoded request line holds no carriage return. */
  lemma LineHasNoCr(m: HTTPMethod, target: string)
    requires IsWord(target) && forall i :: 0 <= i < |target| ==> target[i] as int < 256
    ensures var line := RequestLineBytesOf(m, target); forall k :: 0 <= k < |line| ==> line[k] != 13
  {
    var text := RequestLineText(m, target);
    var mt := MethodText(m);
    WordHasNoCr(mt);
    WordHasNoCr(target);
    forall i | 0 <= i < |text| ensures text[i] != '\r' {
      if i < |mt| {
        assert text[i] == mt[i];
      } else if |mt| < i < |mt| + 1 + |target| {
        assert text[i] == target[i - |mt| - 1];
      }
    }
  }

  /** The words of the request line text are the method, the target and the version. */
  lemma LineWords(m: HTTPMethod, target: string)
    requires IsWord(target)
    ensures Words(RequestLineText(m, target)) == [MethodText(m), target, HTTP_VERSION]
  {
    var ws := [MethodText(m), target, HTTP_VERSION];
    assert IsWord(HTTP_VERSION);
    assert RequestLineText(m, target) == Unwords(ws);
    WordsUnwords(ws);
  }

  /** A line without carriage returns, received with its CR LF and maybe more bytes after it, is read up to the CR LF. */
  lemma LineBeforeCrlf(line: seq<byte>, rest: seq<byte>, n: nat)
    requires |line| + 2 <= n && RecvLength(line + [13, 10] + rest, n)
    requires forall k :: 0 <= k < |line| ==> line[k] != 13
    ensures RequestLineBytes(Receive(line + [13, 10] + rest, n)) == line
  {
    var data := Receive(line + [13, 10] + rest, n);
    assert data[..|line| + 2] == line + [13, 10];
    assert CrlfAt(data, |line|);
    var found := RequestLineBytes(data);
    assert forall k :: 0 <= k < |line| ==> !CrlfAt(data, k);
  }

  /** The `TypeError` Python raises when a `NamedTuple` is built without one of its fields. */
  datatype PyError = MissingArgument(name: string)

  /** `HTTPResponse(...)` with keyword arguments, where `None` is an argument left out. */
  function MakeResponse(status: Option<HTTPStatus>, body: Option<Body>, contentType: Option<string>): (r: Result<HTTPResponse, PyError>)
    ensures r.Ok? <==> status.Some? && body.Some? && contentType.Some?
    ensures r.Ok? ==> r.value == HTTPResponse(status.value, body.value, contentType.value)
  {
    if status.None? then Err(MissingArgument("status"))
    else if body.None? then Err(MissingArgument("body"))
    else if contentType.None? then Err(MissingArgument("content_type"))
    else Ok(HTTPResponse(status.value, body.value, contentType.value))
  }

  /** The text `handle_request` puts in the body: the method and the target, one per line. */
  function HandledBody(req: HTTPRequest): string
  {
    "Method: " + MethodText(req.httpMethod) + "\nTarget: " + req.target + "\n\n"
  }

  /** `handle_request` as written: the response is built without a content type and raises. */
  function HandleRequestAsWritten(req: HTTPRequest): (r: Result<HTTPResponse, PyError>)
    ensures r == Err(MissingArgument("content_type"))
  {
    MakeResponse(Some(OK), Some(Text(HandledBody(req))), None)
  }

  /**
   * `handle_request` with the content type given: a 200 response whose
   * body, split at new lines, is the method line, the target line and two
   * empty lines.
   */
  function HandleRequest(req: HTTPRequest): (r: HTTPResponse)
    ensures r.status == OK && r.body.Text?
    ensures '\n' !in req.target ==>
      Split(r.body.text, '\n') == ["Method: " + MethodText(req.httpMethod), "Target: " + req.target, "", ""]
  {
    HandledBodyLines(req);
    MakeResponse(Some(OK), Some(Text(HandledBody(req))), Some("text/plain")).value
  }

  lemma HandledBodyLines(req: HTTPRequest)
    ensures '\n' !in req.target ==>
      Split(HandledBody(req), '\n') == ["Method: " + MethodText(req.httpMethod), "Target: " + req.target, "", ""]
  {
    if '\n' !in req.target {
      var a, b := "Method: " + MethodText(req.httpMethod), "Target: " + req.target;
      assert '\n' !in MethodText(req.httpMethod);
      assert '\n' !in a && '\n' !in b;
      assert "\nTarget: " == "\n" + "Target: ";
      assert HandledBody(req) == a + "\n" + b + "\n\n";
      TwoLinesSplit(a, b);
    }
  }

  /** Two lines without new lines, then two empty ones, split back into those four lines. */
  lemma TwoLinesSplit(a: string, b: string)
    requires '\n' !in a && '\n' !in b
    ensures Split(a + "\n" + b + "\n\n", '\n') == [a, b, "", ""]
  {
    HandledBodyJoined(a, b);
    SplitJoin([a, b, "", ""], '\n');
  }

  /** Two lines followed by two empty ones, joined by new lines. */
  lemma HandledBodyJoined(a: string, b: string)
    ensures Join([a, b, "", ""], '\n') == a + "\n" + b + "\n\n"
  {
    var parts := [a, b, "", ""];
    assert Join(parts[3..], '\n') == "";
    assert Join(parts[2..], '\n') == "\n" by { assert parts[2..][1..] == parts[3..]; }
    assert Join(parts[1..], '\n') == b + "\n\n" by { assert parts[1..][1..] == parts[2..]; }
    assert Join(parts, '\n') == a + "\n" + (b + "\n\n");
  }

  /** One hexadecimal digit, lower case as Python writes it. */
  function HexDigit(d: nat): (c: char)
    requires d < 16
    ensures ('0' <= c <= '9') || ('a' <= c <= 'f')
  {
    if d < 10 then ('0' as int + d) as char else ('a' as int + d - 10) as char
  }

  /** One byte inside the quotes of a Python `bytes` repr that uses quote `q`. */
  function EscapeByte(b: byte, q: char): (s: string)
    ensures 1 <= |s| <= 4
  {
    if b as char == q || b == 92 then ['\\', b as char]
    else if b == 9 then "\\t"
    else if b == 10 then "\\n"
    else if b == 13 then "\\r"
    else if b < 32 || b >= 127 then "\\x" + [HexDigit(b / 16), HexDigit(b % 16)]
    else [b as char]
  }

  function EscapeBytes(data: seq<byte>, q: char): (s: string)
    ensures |s| >= |data|
  {
    if data == [] then [] else EscapeByte(data[0], q) + EscapeBytes(data[1..], q)
  }

  /** `repr(data)`: `b'...'`, or `b"..."` when the bytes hold a `'` and no `"`. */
  function BytesRepr(data: seq<byte>): (s: string)
    ensures |s| >= |data| + 3 && s[0] == 'b' && s[1] == s[|s| - 1] && (s[1] == '\'' || s[1] == '"')
  {
    var q := if 39 in data && 34 !in data then '"' else '\'';
    "b" + [q] + EscapeBytes(data, q) + [q]
  }

  /** Printable bytes other than the quote and the backslash stand for themselves. */
  lemma {:induction false} PlainEscape(data: seq<byte>)
    requires forall i :: 0 <= i < |data| ==> 32 <= data[i] < 127 && data[i] != 39 && data[i] != 92
    ensures EscapeBytes(data, '\'') == Latin1Decode(data)
  {
    if data != [] {
      PlainEscape(data[1..]);
    }
  }

  /** The repr of printable bytes without quote or backslash is those characters in `b'...'`. */
  lemma PlainBytesRepr(data: seq<byte>)
    requires forall i :: 0 <= i < |data| ==> 32 <= data[i] < 127 && data[i] != 39 && data[i] != 92
    ensures BytesRepr(data) == "b'" + Latin1Decode(data) + "'"
  {
    assert 39 !in data;
    SingleQuotedRepr(data);
    PlainEscape(data);
  }

  /** Bytes without a `'` are shown between single quotes. */
  lemma SingleQuotedRepr(data: seq<byte>)
    requires 39 !in data
    ensures BytesRepr(data) == "b'" + EscapeBytes(data, '\'') + "'"
  {
  }

  /** Printable ASCII other than the single quote and the backslash. */
  predicate PlainChar(c: char) {
    ' ' <= c <= '~' && c != '\'' && c != '\\'
  }

  /** Plain text, encoded, has for repr that same text between `b'` and `'`. */
  lemma {:induction false} PlainTextRepr(t: string)
    requires forall i :: 0 <= i < |t| ==> PlainChar(t[i])
    ensures BytesRepr(Utf8(t)) == "b'" + t + "'"
  {
    Utf8Ascii(t);
    var data := Utf8(t);
    PlainBytesRepr(data);
    assert Latin1Decode(data) == t;
  }

  /** Every reason phrase is plain text. */
  lemma ReasonPlain(s: HTTPStatus)
    ensures forall c :: c in Reason(s) ==> PlainChar(c)
  {
    if Code(s) >= 500 {
      ServerReasonPlain(s);
    } else if Code(s) >= 400 {
      ClientReasonPlain(s);
    }
  }

  /** The reason phrases of the 4xx statuses are plain text. */
  lemma ClientReasonPlain(s: HTTPStatus)
    requires 400 <= Code(s) < 500
    ensures forall c :: c in Reason(s) ==> PlainChar(c)
  {
    match s
    case BAD_REQUEST =>
    case FORBIDDEN =>
    case NOT_FOUND =>
    case METHOD_NOT_ALLOWED =>
    case REQUEST_TIMEOUT =>
    case ENTITY_TOO_LARGE =>
    case UNSUPPORTED_MEDIA_TYPE =>
  }

  /** The reason phrases of the 5xx statuses are plain text. */
  lemma ServerReasonPlain(s: HTTPStatus)
    requires 500 <= Code(s)
    ensures forall c :: c in Reason(s) ==> PlainChar(c)
  {
    match s
    case INTERNAL_SERVER_ERROR =>
    case NOT_IMPLEMENTED =>
    case HTTP_VERSION_NOT_SUPPORTED =>
  }

  /** `str(status)` is plain text: three digits, a space and the reason phrase. */
  lemma StatusTextPlain(s: HTTPStatus)
    ensures forall i :: 0 <= i < |StatusText(s)| ==> PlainChar(StatusText(s)[i])
  {
    var t := StatusText(s);
    assert IsDigitText(t[..3]);
    ReasonPlain(s);
    forall i | 0 <= i < |t| ensures PlainChar(t[i]) {
      if i < 3 {
        assert t[i] == t[..3][i];
      } else if i > 3 {
        assert t[i] == t[4..][i - 4];
      }
    }
  }

  /**
   * The response `HTTPResponse.error` builds, were it sent: its body is
   * `bytes`, so the f-string writes their repr, and the client receives
   * `b'<code> <reason>'` rather than the status text itself.
   */
  lemma ErrorResponseSent(s: HTTPStatus, now: string)
    ensures SendResponse(ErrorResponse(s), now) == Utf8(ResponseHead(s, now)) + Utf8("b'" + StatusText(s) + "'")
  {
    StatusTextPlain(s);
    PlainTextRepr(StatusText(s));
  }

  /** `f"{body}"`: a `str` body as it is, a `bytes` body as its repr. */
  function BodyText(body: Body): string
  {
    match body
    case Text(s) => s
    case Bytes(data) => BytesRepr(data)
  }

  /** `"\r\n".join(lines)`. */
  function JoinCrlf(lines: seq<string>): string
  {
    if lines == [] then []
    else if |lines| == 1 then lines[0]
    else lines[0] + "\r\n" + JoinCrlf(lines[1..])
  }

  /** Joining one more line adds a CR LF and that line at the end. */
  lemma {:induction false} JoinCrlfSnoc(lines: seq<string>, last: string)
    requires lines != []
    ensures JoinCrlf(lines + [last]) == JoinCrlf(lines) + "\r\n" + last
  {
    if |lines| > 1 {
      assert (lines + [last])[1..] == lines[1..] + [last];
      JoinCrlfSnoc(lines[1..], last);
    } else {
      assert (lines + [last])[1..] == [last];
    }
  }

  /** The status line, the Date, Content-Type, Server and Connection headers, and the empty line. */
  function HeadLines(status: HTTPStatus, now: string): (lines: seq<string>)
    ensures |lines| == 6 && lines[5] == []
    ensures lines[0] == "HTTP/1.1 " + StatusText(status) && lines[1] == "Date: " + now
  {
    [ "HTTP/1.1 " + StatusText(status),
      "Date: " + now,
      "Content-Type: text/plain; charset=UTF-8",
      "Server: Fancy Python HTTP Server",
      "Connection: close",
      "" ]
  }

  /** Six lines joined by CR LF: a CR LF between each line and the next. */
  lemma {:induction false} JoinCrlfSix(lines: seq<string>)
    requires |lines| == 6
    ensures JoinCrlf(lines) ==
      lines[0] + "\r\n" + lines[1] + "\r\n" + lines[2] + "\r\n" + lines[3] + "\r\n" + lines[4] + "\r\n" + lines[5]
  {
    var t := lines[1..];
    assert t[1..][1..][1..][1..] == [lines[5]];
    assert JoinCrlf(t[1..][1..][1..]) == lines[4] + "\r\n" + lines[5];
    assert JoinCrlf(t[1..][1..]) == lines[3] + "\r\n" + (lines[4] + "\r\n" + lines[5]);
    assert JoinCrlf(t[1..]) == lines[2] + "\r\n" + (lines[3] + "\r\n" + (lines[4] + "\r\n" + lines[5]));
  }

  /**
   * Everything a response sends before its body: the status line and the
   * four header lines, each ended by CR LF, then the empty line.
   */
  function ResponseHead(status: HTTPStatus, now: string): (head: string)
    ensures var lines := HeadLines(status, now);
      head == lines[0] + "\r\n" + lines[1] + "\r\n" + lines[2] + "\r\n" + lines[3] + "\r\n" + lines[4] + "\r\n" + "\r\n"
  {
    JoinCrlfSix(HeadLines(status, now));
    JoinCrlf(HeadLines(status, now)) + "\r\n"
  }

  /**
   * The text `send_response` writes: the head lines and the body joined by
   * CR LF, which is the head followed by the body with nothing after it.
   * `now` is the formatted current time of the Date header.
   */
  function ResponseText(response: HTTPResponse, now: string): (t: string)
    ensures t == ResponseHead(response.status, now) + BodyText(response.body)
  {
    JoinCrlfSnoc(HeadLines(response.status, now), BodyText(response.body));
    JoinCrlf(HeadLines(response.status, now) + [BodyText(response.body)])
  }

  /** `send_response`: the UTF-8 bytes of the head followed by those of the body. */
  function SendResponse(response: HTTPResponse, now: string): (bytes: seq<byte>)
    ensures bytes == Utf8(ResponseHead(response.status, now)) + Utf8(BodyText(response.body))
  {
    Utf8Append(ResponseHead(response.status, now), BodyText(response.body));
    Utf8(ResponseText(response, now))
  }

  /** `send_error` as written: the response is built without a content type and raises. */
  function SendErrorAsWritten(status: HTTPStatus): (r: Result<HTTPResponse, PyError>)
    ensures r == Err(MissingArgument("content_type"))
  {
    MakeResponse(Some(status), Some(Text("")), None)
  }

  /** `send_error` with the content type given: an empty body, so the bytes end with the blank line. */
  function SendError(status: HTTPStatus, now: string): (bytes: seq<byte>)
    ensures bytes == Utf8(ResponseHead(status, now))
  {
    var response := MakeResponse(Some(status), Some(Text("")), Some("text/plain")).value;
    assert Utf8(BodyText(response.body)) == [];
    SendResponse(response, now)
  }

  /**
   * The bytes one connection receives, with the corrected `handle_request`
   * and `send_error`: the response to the parsed request, or the error
   * response for the status parsing failed with.
   */
  function Exchange(sent: Option<seq<byte>>, n: nat, now: string): (bytes: seq<byte>)
    requires sent.Some? ==> RecvLength(sent.value, n)
    ensures ParseRequest(sent, n).Err? ==> bytes == Utf8(ResponseHead(ParseRequest(sent, n).error, now))
    ensures ParseRequest(sent, n).Ok? ==>
      bytes == Utf8(ResponseHead(OK, now)) + Utf8(HandledBody(ParseRequest(sent, n).value))
  {
    match ParseRequest(sent, n)
    case Ok(req) => SendResponse(HandleRequest(req), now)
    case Err(status) => SendError(status, now)
  }
}
