/**
 * What a route hands back to FastAPI: either a streamed `application/octet-stream`
 * body with its `Content-Disposition` and `Content-Length` headers, or an error
 * with a status code and a detail message (an `HTTPException`, or the server's
 * own 500 when building the response raises).
 */
module Http {
  import opened Wrappers
  import opened Text
  import Envelope

  const ContentDispositionHeader := "Content-Disposition"
  const ContentLengthHeader := "Content-Length"
  const OctetStream := "application/octet-stream"
  const AttachmentPrefix := "attachment; filename=\""
  /** The plain-text body the server sends when a route raises an exception it does not handle. */
  const InternalServerError := "Internal Server Error"

  datatype Response =
    | Ok(body: Envelope.Bytes, mediaType: string, headers: map<string, string>)
    | Err(status: nat, detail: string)

  /**
   * The `Content-Disposition` value for a download named `name`: the name is put
   * between double quotes as it is, with no escaping.
   */
  function ContentDisposition(name: string): (h: string)
    ensures |h| == |AttachmentPrefix| + |name| + 1
    ensures h[..|AttachmentPrefix|] == AttachmentPrefix && h[|h| - 1] == '"'
    ensures h[|AttachmentPrefix|..|h| - 1] == name
    ensures IsLatin1(h) <==> IsLatin1(name)
  {
    var h := AttachmentPrefix + name + "\"";
    assert forall i :: 0 <= i < |name| ==> h[|AttachmentPrefix| + i] == name[i];
    h
  }

  /**
   * The body of a quoted-string (section 3.2.6 of RFC 7230), read from just after
   * its opening quote: it ends at the first '"' that is not escaped, and '\\'
   * escapes the character after it. Whatever follows the closing quote is ignored.
   */
  function QuotedBody(s: string): (r: Option<string>)
    ensures r.Some? ==> |r.value| < |s|
    decreases |s|
  {
    if s == [] then None
    else if s[0] == '"' then Some([])
    else if s[0] == '\\' then
      if |s| < 2 then None
      else match QuotedBody(s[2..])
        case None => None
        case Some(t) => Some([s[1]] + t)
    else match QuotedBody(s[1..])
      case None => None
      case Some(t) => Some([s[0]] + t)
  }

  /** The file name a recipient reads from an `attachment; filename="…"` value, if it has that form. */
  function DispositionFilename(h: string): (r: Option<string>)
    ensures r.Some? ==> |h| > |AttachmentPrefix| && h[..|AttachmentPrefix|] == AttachmentPrefix
  {
    var n := |AttachmentPrefix|;
    if |h| >= n && h[..n] == AttachmentPrefix then QuotedBody(h[n..]) else None
  }

  /** A name with no '"' and no '\\', followed by the closing quote, reads back whole. */
  lemma {:induction false} QuotedBodyOfPlainName(name: string, rest: string)
    requires '"' !in name && '\\' !in name
    ensures QuotedBody(name + "\"" + rest) == Some(name)
  {
    var s := name + "\"" + rest;
    if name != [] {
      assert name[0] in name;
      assert s[1..] == name[1..] + "\"" + rest;
      QuotedBodyOfPlainName(name[1..], rest);
      assert [name[0]] + name[1..] == name;
    }
  }

  /** A name with no '"' and no '\\' survives the header: the download keeps the name it was given. */
  lemma DispositionRoundTrip(name: string)
    requires '"' !in name && '\\' !in name
    ensures DispositionFilename(ContentDisposition(name)) == Some(name)
  {
    var h := ContentDisposition(name);
    assert h[|AttachmentPrefix|..] == name + "\"" + "";
    QuotedBodyOfPlainName(name, "");
  }

  /** The name is not escaped, so one holding a '"' is cut short: `x".txt` is read back as `x`. */
  lemma UnescapedQuoteCutsName()
    ensures DispositionFilename(ContentDisposition("x\".txt")) == Some("x")
  {
    var h := ContentDisposition("x\".txt");
    var s := h[|AttachmentPrefix|..];
    assert s == "x\".txt\"";
    assert s[1..] == "\".txt\"";
    assert QuotedBody(s[1..]) == Some([]);
    assert s[0] == 'x' && QuotedBody(s) == Some(['x'] + []);
    assert ['x'] + [] == "x";
    assert DispositionFilename(h) == QuotedBody(s);
  }

  /**
   * A successful route's response: the body streamed as a download named `name`.
   * Header values are encoded as Latin-1 when the response is built, so a name
   * outside Latin-1 makes that raise, and the server answers 500.
   */
  function Attachment(name: string, body: Envelope.Bytes): (r: Response)
    ensures r.Ok? <==> IsLatin1(name)
    ensures r.Err? ==> r.status == 500 && r.detail == InternalServerError
    ensures r.Ok? ==> r.body == body && r.mediaType == OctetStream
    ensures r.Ok? ==> r.headers.Keys == {ContentDispositionHeader, ContentLengthHeader}
    ensures r.Ok? ==> r.headers[ContentDispositionHeader] == ContentDisposition(name)
    ensures r.Ok? && '"' !in name && '\\' !in name ==>
              DispositionFilename(r.headers[ContentDispositionHeader]) == Some(name)
    ensures r.Ok? ==> ParseDecimal(r.headers[ContentLengthHeader]) == Some(|r.body|)
  {
    var headers := map[ContentDispositionHeader := ContentDisposition(name),
                       ContentLengthHeader := DecimalString(|body|)];
    if !(IsLatin1(headers[ContentDispositionHeader]) && IsLatin1(headers[ContentLengthHeader])) then
      Err(500, InternalServerError)
    else
      DecimalRoundTrip(|body|);
      if '"' !in name && '\\' !in name then DispositionRoundTrip(name); Ok(body, OctetStream, headers)
      else Ok(body, OctetStream, headers)
  }
}
