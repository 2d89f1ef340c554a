/**
 * The HTTP errors the routers raise, and the generic exception handler
 * that several of them wrap around their body.
 */
module Http {
  import opened Wrappers
  import opened Text

  const BadRequest: int := 400
  const NotFound: int := 404
  const InternalServerError: int := 500

  /** An `HTTPException`: a status code and a detail message. */
  datatype HttpException = HttpException(status: int, detail: string)

  /** What an endpoint produces: a response body, or the HTTP error it raised. */
  type Outcome<T> = Result<T, HttpException>

  /** `str(exc)` of an HTTP exception: the status code, a colon and a space, then the detail. */
  function Describe(e: HttpException): string {
    IntToString(e.status) + ": " + e.detail
  }

  /**
   * `except Exception as e: raise HTTPException(status_code=500, detail=str(e))`
   * reached by an HTTP exception: a 500 whose detail is the description of
   * the original exception.
   */
  function AsServerError(e: HttpException): (w: HttpException)
    ensures w.status == InternalServerError
    ensures w.detail == Describe(e)
    ensures StartsWith(w.detail, IntToString(e.status) + ": ")
    ensures EndsWith(w.detail, e.detail)
  {
    var front := IntToString(e.status) + ": ";
    var d := Describe(e);
    assert d[..|front|] == front;
    assert d[|front|..] == e.detail;
    HttpException(InternalServerError, d)
  }

  /**
   * A body whose only errors are HTTP exceptions, run under a generic
   * handler with no `except HTTPException: raise` before it: every error
   * leaves as a 500.
   */
  function CatchAll<T>(o: Outcome<T>): (r: Outcome<T>)
    ensures o.Success? ==> r == o
    ensures o.Failure? ==> r == Failure(AsServerError(o.error))
  {
    match o
    case Success(_) => o
    case Failure(e) => Failure(AsServerError(e))
  }

  /** A 404 reaching the generic handler leaves as a 500 whose detail starts with `404: `. */
  lemma NotFoundAsServerError(detail: string)
    ensures AsServerError(HttpException(NotFound, detail)) == HttpException(500, "404: " + detail)
  {
    assert IntToString(404) == "404";
  }

  /**
   * The generic handler never lets an error through unchanged: the status
   * becomes 500 and the detail grows, yet the original status can still be
   * read back from the front of the new detail.
   */
  lemma CatchAllRewritesEveryError(e: HttpException)
    ensures AsServerError(e) != e
    ensures e.status != InternalServerError ==> AsServerError(e).status != e.status
    ensures var w := AsServerError(e);
            var k := |IntToString(e.status)|;
            k < |w.detail| && ParseInt(w.detail[..k]) == Some(e.status)
  {
    var w := AsServerError(e);
    var s := IntToString(e.status);
    assert |w.detail| == |s| + 2 + |e.detail|;
    assert w.detail[..|s|] == s by {
      assert w.detail[..|s| + 2] == s + ": ";
    }
    IntToStringRoundTrip(e.status);
  }
}
