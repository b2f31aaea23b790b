/**
 * HTTP responses as the handlers build them: a status code, a header map
 * and a body. Header names are written in lower case, as the `http` crate
 * stores them, and a name maps to the list of its values.
 */
module Http {
  import opened Maybe

  datatype Response = Response(status: nat, headers: map<string, seq<string>>, body: string)

  const ContentType := "content-type"
  const LocationHeader := "location"
  const ETagHeader := "etag"

  /** `HeaderMap::get`: the first value of a header. */
  function Header(r: Response, name: string): (v: Option<string>)
    ensures v.Some? <==> name in r.headers && r.headers[name] != []
  {
    if name in r.headers && r.headers[name] != [] then Some(r.headers[name][0]) else None
  }

  /** A response with one content type and nothing else in its header map. */
  function WithContentType(status: nat, contentType: string, body: string): (r: Response)
    ensures r.status == status && r.body == body
    ensures r.headers.Keys == {ContentType} && Header(r, ContentType) == Some(contentType)
  {
    Response(status, map[ContentType := [contentType]], body)
  }

  /** `(StatusCode, &str).into_response()`. */
  function PlainText(status: nat, body: string): (r: Response)
    ensures r.status == status && r.body == body
    ensures Header(r, ContentType) == Some("text/plain; charset=utf-8")
  {
    WithContentType(status, "text/plain; charset=utf-8", body)
  }

  /** `Redirect::to`: 303 See Other with a Location header and no body. */
  function Redirect(to: string): (r: Response)
    ensures r.status == 303 && r.body == ""
    ensures Header(r, LocationHeader) == Some(to)
  {
    Response(303, map[LocationHeader := [to]], "")
  }
}
