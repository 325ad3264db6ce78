/**
 * The chained builder of HTTP responses. Each setter overwrites one field of
 * the builder in place (the Java setters also return `this` for chaining;
 * here the calls are simply made one after the other).
 */
module Builder {
  import opened Wrappers
  import opened Text
  import opened Responses

  const DefaultStatusLine := "HTTP/1.1 200 OK"
  const DefaultContentType := "text/plain; charset=UTF-8"

  /** The status line `status(code, reason)` writes: "HTTP/1.1 <code> <reason>". */
  function StatusLineFor(code: int, reason: string): string {
    "HTTP/1.1 " + Decimal(code) + " " + reason
  }

  /**
   * For a three-digit code the status line has the layout of section 4 of
   * RFC 9112 (version, space, three-digit code, space, reason phrase), and the
   * code and the reason phrase can be read back from it.
   */
  lemma StatusLineParts(code: int, reason: string)
    requires 100 <= code <= 999
    ensures var s := StatusLineFor(code, reason);
      && |s| == 13 + |reason|
      && s[..9] == "HTTP/1.1 "
      && ParseDecimal(s[9..12]) == Some(code)
      && s[12] == ' '
      && s[13..] == reason
  {
    DecimalThreeDigits(code);
    DecimalRoundTrip(code);
    var s := StatusLineFor(code, reason);
    assert s[9..12] == Decimal(code);
  }

  /** The headers `build()` hands over: a non-null body stamps Content-Length. */
  function WithContentLength(headers: map<string, string>, body: Option<string>): map<string, string> {
    if body.Some? then headers[ContentLengthName := Decimal(Utf8Length(body.value))] else headers
  }

  /**
   * After `build()` with a non-null body, Content-Length holds the decimal byte
   * length of the body, whatever the caller had put there, and every other
   * header is kept; with a null body the headers are left as they were.
   */
  lemma BuildStampsContentLength(statusLine: string, headers: map<string, string>, body: Option<string>)
    ensures var r := HttpResponse(statusLine, WithContentLength(headers, body), body);
      && (body.Some? ==> ContentLengthName in r.headers
                         && ParseDecimal(r.headers[ContentLengthName]) == Some(r.ContentLength()))
      && (body.None? ==> r.headers == headers)
      && r.headers.Keys == headers.Keys + (if body.Some? then {ContentLengthName} else {})
      && forall name :: name in headers && name != ContentLengthName ==> r.headers[name] == headers[name]
  {
    if body.Some? {
      DecimalRoundTrip(Utf8Length(body.value));
    }
  }

  /** Building twice without a change in between gives equal responses. */
  lemma BuildTwiceSame(headers: map<string, string>, body: Option<string>)
    ensures WithContentLength(WithContentLength(headers, body), body) == WithContentLength(headers, body)
  {
  }

  class HttpResponseBuilder {
    var statusLine: string
    var headers: map<string, string>  // case-sensitive keys, as in a HashMap
    var body: Option<string>

    constructor ()
      ensures statusLine == DefaultStatusLine
      ensures headers == map[ContentTypeName := DefaultContentType]
      ensures body == Some("")
    {
      statusLine := DefaultStatusLine;
      headers := map[ContentTypeName := DefaultContentType];
      body := Some("");
    }

    /** `statusLine(s)`: the status line verbatim. */
    method SetStatusLine(line: string)
      modifies this
      ensures statusLine == line
      ensures headers == old(headers) && body == old(body)
    {
      statusLine := line;
    }

    /** `status(code, reason)`. */
    method SetStatus(code: int, reason: string)
      modifies this
      ensures statusLine == StatusLineFor(code, reason)
      ensures headers == old(headers) && body == old(body)
    {
      statusLine := "HTTP/1.1 " + Decimal(code) + " " + reason;
    }

    /** `header(name, value)`: overwrites the value of exactly that key. */
    method PutHeader(name: string, value: string)
      modifies this
      ensures headers == old(headers)[name := value]
      ensures statusLine == old(statusLine) && body == old(body)
    {
      headers := headers[name := value];
    }

    /** `contentType(t)`: the same effect as `header("Content-Type", t)`. */
    method SetContentType(contentType: string)
      modifies this
      ensures headers == old(headers)[ContentTypeName := contentType]
      ensures statusLine == old(statusLine) && body == old(body)
    {
      headers := headers[ContentTypeName := contentType];
    }

    /** `body(b)`: replaces only the body. */
    method SetBody(b: Option<string>)
      modifies this
      ensures body == b
      ensures statusLine == old(statusLine) && headers == old(headers)
    {
      body := b;
    }

    /**
     * `build()`: stamps Content-Length into the builder's own map, then hands
     * out the current status line, headers and body.
     */
    method Build() returns (r: HttpResponse)
      modifies this
      ensures headers == WithContentLength(old(headers), body)
      ensures statusLine == old(statusLine) && body == old(body)
      ensures r == HttpResponse(statusLine, headers, body)
    {
      if body.Some? {
        headers := headers[ContentLengthName := Decimal(Utf8Length(body.value))];
      }
      r := HttpResponse(statusLine, headers, body);
    }
  }

  /** What `ok(content)` yields. */
  function OkResponse(content: Option<string>): HttpResponse {
    HttpResponse(DefaultStatusLine,
                 WithContentLength(map[ContentTypeName := DefaultContentType], content),
                 content)
  }

  const NotFoundResponse := HttpResponse(
    "HTTP/1.1 404 Not Found",
    map[ContentTypeName := DefaultContentType, ContentLengthName := "15"],
    Some("404 - Not Found"))

  const InternalServerErrorResponse := HttpResponse(
    "HTTP/1.1 500 Internal Server Error",
    map[ContentTypeName := DefaultContentType, ContentLengthName := "27"],
    Some("500 - Internal Server Error"))

  /** `ok(content)`: 200 OK, plain-text content type, the given body. */
  method Ok(content: Option<string>) returns (r: HttpResponse)
    ensures r.statusLine == "HTTP/1.1 200 OK"
    ensures r.body == content
    ensures content.Some? ==> r.headers.Keys == {ContentTypeName, ContentLengthName}
                              && ParseDecimal(r.headers[ContentLengthName]) == Some(r.ContentLength())
    ensures content.None? ==> r.headers.Keys == {ContentTypeName}
    ensures r.headers[ContentTypeName] == "text/plain; charset=UTF-8"
    ensures r == OkResponse(content)
  {
    var b := new HttpResponseBuilder();
    b.SetStatus(200, "OK");
    OkStatusLine();
    b.SetContentType("text/plain; charset=UTF-8");
    b.SetBody(content);
    r := b.Build();
    BuildStampsContentLength(r.statusLine, map[ContentTypeName := DefaultContentType], content);
  }

  /** `notFound()`: 404 with a 15-byte body. */
  method NotFound() returns (r: HttpResponse)
    ensures r == NotFoundResponse
    ensures r.ContentLength() == 15
  {
    var b := new HttpResponseBuilder();
    b.SetStatus(404, "Not Found");
    NotFoundStatusLine();
    b.SetBody(Some("404 - Not Found"));
    NotFoundStamp();
    r := b.Build();
  }

  /** `internalServerError()`: 500 with a 27-byte body. */
  method InternalServerError() returns (r: HttpResponse)
    ensures r == InternalServerErrorResponse
    ensures r.ContentLength() == 27
  {
    var b := new HttpResponseBuilder();
    b.SetStatus(500, "Internal Server Error");
    InternalServerErrorStatusLine();
    b.SetBody(Some("500 - Internal Server Error"));
    InternalServerErrorStamp();
    r := b.Build();
  }

  lemma OkStatusLine()
    ensures StatusLineFor(200, "OK") == DefaultStatusLine
  {
    DecimalThreeDigits(200);
    assert Decimal(200) == "200";
  }

  lemma NotFoundStatusLine()
    ensures StatusLineFor(404, "Not Found") == NotFoundResponse.statusLine
  {
    DecimalThreeDigits(404);
    assert Decimal(404) == "404";
  }

  lemma NotFoundStamp()
    ensures WithContentLength(map[ContentTypeName := DefaultContentType], Some("404 - Not Found"))
            == map[ContentTypeName := DefaultContentType, ContentLengthName := "15"]
  {
    DecimalTwoDigits(15);
    Utf8LengthAscii("404 - Not Found");
  }

  lemma InternalServerErrorStatusLine()
    ensures StatusLineFor(500, "Internal Server Error") == InternalServerErrorResponse.statusLine
  {
    DecimalThreeDigits(500);
    assert Decimal(500) == "500";
    assert "HTTP/1.1 " + "500" + " " == "HTTP/1.1 500 ";
    assert StatusLineFor(500, "Internal Server Error") == "HTTP/1.1 500 " + "Internal Server Error";
    InternalServerErrorText();
  }

  lemma InternalServerErrorText()
    ensures "HTTP/1.1 500 " + "Internal Server Error" == InternalServerErrorResponse.statusLine
  {
  }

  lemma InternalServerErrorStamp()
    ensures WithContentLength(map[ContentTypeName := DefaultContentType], Some("500 - Internal Server Error"))
            == map[ContentTypeName := DefaultContentType, ContentLengthName := "27"]
  {
    DecimalTwoDigits(27);
    Utf8LengthAscii("500 - Internal Server Error");
  }
}
