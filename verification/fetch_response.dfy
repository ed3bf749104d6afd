/** The checks one download attempt applies to an HTTP response before its body is used as a font
    file stream. */
module FetchResponse {
  import opened Wrappers

  /** What an attempt sees of a response: its status, its content-type header (absent when the
      header is missing) and its body. */
  datatype Response<B> = Response(status: int, contentType: Option<string>, body: B)

  /** Why an attempt was refused. */
  datatype FetchError =
    | UpstreamStatus(status: int)
    | ContentTypeMismatch(format: string, contentType: Option<string>)

  /** `pat` occurs in `s` starting at position `k`. */
  ghost predicate OccursAt(s: string, pat: string, k: int)
  {
    0 <= k && k + |pat| <= |s| && s[k..k + |pat|] == pat
  }

  /** `pat` is a substring of `s`. */
  ghost predicate Contains(s: string, pat: string)
  {
    exists k :: OccursAt(s, pat, k)
  }

  /** The first position at or after `from` where `pat` occurs in `s`, or -1. */
  function IndexFrom(s: string, pat: string, from: nat): (r: int)
    requires from <= |s|
    ensures r == -1 || (from <= r && OccursAt(s, pat, r))
    ensures forall k :: from <= k && (r == -1 || k < r) ==> !OccursAt(s, pat, k)
    decreases |s| - from
  {
    if from + |pat| > |s| then -1
    else if s[from..from + |pat|] == pat then from
    // unreachable (from == |s| forces an empty `pat`, found just above); it lets termination be proved
    else if from == |s| then -1
    else IndexFrom(s, pat, from + 1)
  }

  /** `String.prototype.indexOf`: the first position where `pat` occurs in `s`, or -1 when it does
      not occur (an empty `pat` occurs at 0). */
  function IndexOf(s: string, pat: string): (r: int)
    ensures r == -1 <==> !Contains(s, pat)
    ensures r != -1 ==> OccursAt(s, pat, r) && forall k :: 0 <= k < r ==> !OccursAt(s, pat, k)
  {
    IndexFrom(s, pat, 0)
  }

  /** A content-type header accepts `format` when it is present, non-empty and holds `format` as a
      substring. */
  ghost predicate AcceptsFormat(contentType: Option<string>, format: string)
  {
    contentType.Some? && |contentType.value| > 0 && Contains(contentType.value, format)
  }

  /** One attempt of `fetchFontFileStream`: the body of a response whose status is exactly 200 and
      whose content type names the requested format; otherwise the error the attempt throws. */
  function AcceptResponse<B>(response: Response<B>, format: string): (r: Result<B, FetchError>)
    ensures response.status != 200 ==> r == Failure(UpstreamStatus(response.status))
    ensures response.status == 200 ==> (r.Success? <==> AcceptsFormat(response.contentType, format))
    ensures response.status == 200 && r.Failure? ==> r.error == ContentTypeMismatch(format, response.contentType)
    ensures r.Success? ==> r.value == response.body
  {
    if response.status != 200 then Failure(UpstreamStatus(response.status))
    else if response.contentType.None? || |response.contentType.value| == 0
            || IndexOf(response.contentType.value, format) == -1 then
      Failure(ContentTypeMismatch(format, response.contentType))
    else Success(response.body)
  }

  /** An HTML page served with status 200 in place of a woff2 file is refused. */
  lemma HtmlRefusedForWoff2<B>(body: B)
    ensures AcceptResponse(Response(200, Some("text/html"), body), "woff2").Failure?
  {
    var s := "text/html";
    forall k | 0 <= k && k + 5 <= |s| ensures !OccursAt(s, "woff2", k) {
      assert s[k] in s;
      assert s[k..k + 5][0] == s[k] != 'w';
    }
  }

  /** The match is by substring: a `font/woff2` response is accepted for the format `woff`. */
  lemma Woff2AcceptedForWoff<B>(body: B)
    ensures AcceptResponse(Response(200, Some("font/woff2"), body), "woff") == Success(body)
  {
    assert OccursAt("font/woff2", "woff", 5);
  }

  /** An empty format token is found in every non-empty content type. */
  lemma EmptyFormatAcceptsAnyContentType<B>(contentType: string, body: B)
    requires |contentType| > 0
    ensures AcceptResponse(Response(200, Some(contentType), body), "") == Success(body)
  {
    assert OccursAt(contentType, "", 0);
  }
}
