/**
  The response serialiser sendResponse and the fixed texts the server sends.
  A response is "HTTP/1.1 " + status + "\r\n\r\n" + content: the status-line
  layout of section 4 of RFC 9112 with no header fields, the end of the body
  being signalled by closing the connection. The content is formatted with
  `%s`, so only its bytes before the first NUL are sent.
 */
module Responses {
  import opened Bytes

  const StatusOk: Bytes := "200 OK"
  const StatusBadRequest: Bytes := "400 Bad Request"
  const StatusNotFound: Bytes := "404 Not Found"
  const StatusServerError: Bytes := "500 Internal Server Error"
  const StatusNotImplemented: Bytes := "501 Not Implemented"

  /** NOT_FOUND: a body that itself begins with a complete 404 status header. */
  const NotFoundBody: Bytes := "HTTP/1.1 404 Not Found\r\n\r\nPage not found."
  /** NOT_IMPLEMENTED: a body that is itself a complete 501 status header. */
  const NotImplementedBody: Bytes := "HTTP/1.1 501 Not Implemented\r\n\r\n"
  const InvalidRequestBody: Bytes := "Invalid request."
  const InvalidPathBody: Bytes := "Invalid file path."
  const ReadRequestErrorBody: Bytes := "An error occurred while reading the request."
  const ProcessingErrorBody: Bytes := "An error occurred while processing the request."
  const UploadedBody: Bytes := "File uploaded successfully."
  const AppendedBody: Bytes := "File appended successfully."
  const DeletedBody: Bytes := "File deleted successfully."

  const StatusLinePrefix: Bytes := "HTTP/1.1 "
  const HeaderEnd: Bytes := "\r\n\r\n"

  /** The five status lines the server produces. */
  predicate IsKnownStatus(status: Bytes)
  {
    status == StatusOk || status == StatusBadRequest || status == StatusNotFound
    || status == StatusServerError || status == StatusNotImplemented
  }

  /** The bytes sendResponse writes for a status and a content. */
  function FormatResponse(status: Bytes, content: Bytes): Bytes
  {
    StatusLinePrefix + status + HeaderEnd + CString(content)
  }

  /** The blank line "\r\n\r\n" that ends the header begins at position `j` of `s`. */
  predicate BlankLineAt(s: Bytes, j: nat)
  {
    j + 4 <= |s| && s[j..j + 4] == HeaderEnd
  }

  /** The first position at or after `from` where the blank line begins. */
  function FindHeaderEnd(s: Bytes, from: nat): (r: Option<nat>)
    ensures r.Some? ==> from <= r.value && BlankLineAt(s, r.value)
    ensures r.Some? ==> forall j :: from <= j < r.value ==> !BlankLineAt(s, j)
    ensures r.None? ==> forall j :: from <= j ==> !BlankLineAt(s, j)
    decreases |s| - from
  {
    if from + 4 > |s| then None
    else if BlankLineAt(s, from) then Some(from)
    else FindHeaderEnd(s, from + 1)
  }

  /**
    How a client reads a response: the status after "HTTP/1.1 " up to the
    first blank line, and the body after it.
   */
  function ParseResponse(r: Bytes): Option<(Bytes, Bytes)>
  {
    if |r| < |StatusLinePrefix| || r[..|StatusLinePrefix|] != StatusLinePrefix then None
    else
      match FindHeaderEnd(r, |StatusLinePrefix|)
      case None => None
      case Some(i) => Some((r[|StatusLinePrefix|..i], r[i + 4..]))
  }

  /**
    A client reading a response gets back the status and the C-string part
    of the content, for any status free of '\r'.
   */
  lemma ResponseRoundTrip(status: Bytes, content: Bytes)
    requires '\r' !in status
    ensures ParseResponse(FormatResponse(status, content)) == Some((status, CString(content)))
  {
    var r := FormatResponse(status, content);
    var p := |StatusLinePrefix|;
    var i := p + |status|;
    assert r[..p] == StatusLinePrefix;
    assert BlankLineAt(r, i);
    forall j | p <= j < i
      ensures !BlankLineAt(r, j)
    {
      assert r[j] == status[j - p];
      assert r[j..j + 4][0] == r[j];
    }
    var found := FindHeaderEnd(r, p);
    assert found == Some(i);
    assert r[p..i] == status;
    assert r[i + 4..] == CString(content);
  }

  lemma KnownStatusesHaveNoCarriageReturn(status: Bytes)
    requires IsKnownStatus(status)
    ensures '\r' !in status
  {
  }

  /**
    A 404 response carries its status header twice: the body a client reads
    after the first blank line is itself a complete 404 response.
   */
  lemma NotFoundHeaderDoubled()
    ensures ParseResponse(FormatResponse(StatusNotFound, NotFoundBody)) == Some((StatusNotFound, NotFoundBody))
    ensures ParseResponse(NotFoundBody) == Some((StatusNotFound, "Page not found."))
  {
    var text: Bytes := "Page not found.";
    assert '\0' !in text && '\0' !in NotFoundBody;
    assert NotFoundBody == StatusLinePrefix + StatusNotFound + HeaderEnd + text;
    ResponseRoundTrip(StatusNotFound, NotFoundBody);
    ResponseRoundTrip(StatusNotFound, text);
  }

  /**
    A 501 response carries its status header twice: its body is an empty
    501 response.
   */
  lemma NotImplementedHeaderDoubled()
    ensures ParseResponse(FormatResponse(StatusNotImplemented, NotImplementedBody))
         == Some((StatusNotImplemented, NotImplementedBody))
    ensures ParseResponse(NotImplementedBody) == Some((StatusNotImplemented, []))
  {
    assert '\0' !in NotImplementedBody;
    assert NotImplementedBody == StatusLinePrefix + StatusNotImplemented + HeaderEnd + [];
    ResponseRoundTrip(StatusNotImplemented, NotImplementedBody);
    ResponseRoundTrip(StatusNotImplemented, []);
  }
}
