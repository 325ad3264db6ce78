/**
 * The immutable HTTP response value. Its three fields are the constructor's
 * arguments and the getters `getStatusLine`, `getHeaders` and `getBody` are the
 * datatype's destructors. A Dafny map is a value, so the copy the constructor
 * takes of the caller's header map, and the copy `getHeaders` hands out, can
 * never be affected by later changes on the other side.
 */
module Responses {
  import opened Wrappers
  import opened Text

  const ContentTypeName := "Content-Type"
  const ContentLengthName := "Content-Length"

  datatype HttpResponse = HttpResponse(
    statusLine: string,
    headers: map<string, string>,
    body: Option<string>)  // None: a null body
  {
    /** Byte length of the body under UTF-8, and 0 for a null body. */
    function ContentLength(): (n: nat)
      ensures body.None? ==> n == 0
      ensures body.Some? ==> |body.value| <= n <= 4 * |body.value|
      ensures body.Some? && IsAscii(body.value) ==> n == |body.value|
    {
      if body.Some? then
        Utf8LengthAscii(body.value);
        Utf8Length(body.value)
      else 0
    }
  }
}
