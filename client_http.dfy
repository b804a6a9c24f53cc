/**
 * How the client reads the server's answer to a GET: rate-limit text in a
 * body, redirects followed by hand (the `Location` header of section 10.2.2
 * of RFC 9110, resolved against the site or the current path), `429` with
 * its `Retry-After` (section 10.2.3 of RFC 9110) and `403` on an
 * authenticated request, both taken as rate limits.
 */
module HttpRules {
  import opened Wrappers
  import opened Text
  import opened LastFmTypes
  import Login

  /**
   * `is_rate_limit_response`: the body, lower-cased, contains some pattern,
   * lower-cased.
   */
  function IsRateLimitResponse(patterns: seq<string>, body: string): (r: bool)
    ensures r <==> exists p :: p in patterns && Contains(ToLower(body), ToLower(p))
  {
    if patterns == [] then false
    else Contains(ToLower(body), ToLower(patterns[0])) || IsRateLimitResponse(patterns[1..], body)
  }

  /** An empty pattern occurs in every body, so it makes every response a rate limit. */
  lemma EmptyPatternMatchesAll(patterns: seq<string>, body: string)
    requires "" in patterns
    ensures IsRateLimitResponse(patterns, body)
  {
    assert OccursAt(ToLower(body), ToLower(""), 0);
  }

  /** Patterns are compared without regard to ASCII case. */
  lemma PatternCaseIgnored(patterns: seq<string>, body: string)
    ensures IsRateLimitResponse(patterns, body) == IsRateLimitResponse(patterns, ToLower(body))
  {
    ToLowerIdempotent(body);
  }

  /** `[String]::join` of the parts of a path but the last: the parent path. */
  function ParentPath(url: string): string {
    var parts := Split(url, '/');
    Join(parts[..|parts| - 1], "/")
  }

  lemma {:induction false} JoinSnoc(parts: seq<string>, last: string, sep: string)
    requires |parts| >= 1
    ensures Join(parts + [last], sep) == Join(parts, sep) + sep + last
    decreases |parts|
  {
    if |parts| == 1 {
      assert (parts + [last])[1..] == [last];
    } else {
      assert (parts + [last])[1..] == parts[1..] + [last];
      JoinSnoc(parts[1..], last, sep);
    }
  }

  /**
   * The parent path is the URL up to its last `/`: the URL is the parent
   * path, a `/` and a last segment free of `/`. Without a `/` it is empty.
   */
  lemma ParentPathIsPrefix(url: string)
    ensures '/' !in url ==> ParentPath(url) == ""
    ensures '/' in url ==>
      exists tail :: '/' !in tail && url == ParentPath(url) + "/" + tail
  {
    var parts := Split(url, '/');
    JoinSplit(url, '/');
    if |parts| == 1 {
      assert Join(parts, "/") == parts[0];
    } else {
      var init := parts[..|parts| - 1];
      var tail := parts[|parts| - 1];
      assert parts == init + [tail];
      JoinSnoc(init, tail, "/");
      assert url == ParentPath(url) + "/" + tail;
    }
  }

  /**
   * Where a redirect leads: a `Location` starting with `/` is on the site, one
   * starting with `http` is used as it is, and anything else replaces the
   * last segment of the current URL.
   */
  function ResolveLocation(baseUrl: string, url: string, location: string): (r: string)
    ensures "/" <= location ==> r == baseUrl + location
    ensures !("/" <= location) && "http" <= location ==> r == location
  {
    if "/" <= location then baseUrl + location
    else if "http" <= location then location
    else ParentPath(url) + "/" + location
  }

  /** A relative `Location` keeps everything of the current URL up to its last `/`. */
  lemma ResolveRelative(baseUrl: string, url: string, location: string)
    requires !("/" <= location) && !("http" <= location) && '/' in url
    ensures exists prefix, tail :: '/' !in tail && url == prefix + "/" + tail
                                 && ResolveLocation(baseUrl, url, location) == prefix + "/" + location
  {
    ParentPathIsPrefix(url);
    var tail :| '/' !in tail && url == ParentPath(url) + "/" + tail;
  }

  /** The parts of a response the rules look at. */
  datatype HttpResponse = HttpResponse(
    status: nat,
    /** The values of the `Location` header, if any. */
    location: seq<string>,
    /** The values of the `Retry-After` header, if any. */
    retryAfter: seq<string>,
    setCookie: Option<seq<string>>)

  /** The outcome of `get_with_redirects`, the cookie jar after it, and how many requests were sent. */
  datatype Fetched = Fetched(result: Result<HttpResponse, LastFmError>, cookies: seq<string>, requests: nat)

  /** The seconds a `429` asks for: the first `Retry-After` value as a `u64`, or 60. */
  function RetryAfterSeconds(values: seq<string>): (s: nat)
    ensures values == [] || ParseU64(values[0]).None? ==> s == 60
    ensures values != [] && ParseU64(values[0]).Some? ==> s == ParseU64(values[0]).value
  {
    if values != [] && ParseU64(values[0]).Some? then ParseU64(values[0]).value else 60
  }

  predicate IsRedirect(r: HttpResponse) {
    (r.status == 302 || r.status == 301) && r.location != []
  }

  /** The jar after a response's `Set-Cookie` values are taken in. */
  function TakeCookies(jar: seq<string>, r: HttpResponse): seq<string> {
    match r.setCookie
    case None => jar
    case Some(hs) => Login.AbsorbAll(jar, hs)
  }

  /**
   * `get_with_redirects`. `send(url, cookies)` is the server's answer to a
   * GET of `url` with the jar `cookies`, or the transport's error text.
   */
  function GetWithRedirects(send: (string, seq<string>) -> Result<HttpResponse, string>, baseUrl: string,
                            cookies: seq<string>, url: string, redirectCount: nat): Fetched
    decreases 6 - redirectCount
  {
    if redirectCount > 5 then Fetched(Err(Http("Too many redirects")), cookies, 0)
    else
      match send(url, cookies)
      case Err(msg) => Fetched(Err(Http(msg)), cookies, 1)
      case Ok(resp) =>
        var jar := TakeCookies(cookies, resp);
        if IsRedirect(resp) then
          var location := resp.location[0];
          if Contains(url, "page=") && Contains(location, "/login") then
            Fetched(Err(Auth("Session expired or invalid for paginated request")), jar, 1)
          else
            var next := GetWithRedirects(send, baseUrl, jar, ResolveLocation(baseUrl, url, location), redirectCount + 1);
            next.(requests := next.requests + 1)
        else if resp.status == 429 then Fetched(Err(RateLimit(RetryAfterSeconds(resp.retryAfter))), jar, 1)
        else if resp.status == 403 && jar != [] then Fetched(Err(RateLimit(60)), jar, 1)
        else Fetched(Ok(resp), jar, 1)
  }

  /** No more than six requests are sent for one GET: the first and five redirects. */
  lemma {:induction false} RequestsBounded(send: (string, seq<string>) -> Result<HttpResponse, string>, baseUrl: string,
                                           cookies: seq<string>, url: string, redirectCount: nat)
    requires redirectCount <= 6
    ensures GetWithRedirects(send, baseUrl, cookies, url, redirectCount).requests <= 6 - redirectCount
    decreases 6 - redirectCount
  {
    if redirectCount <= 5 && send(url, cookies).Ok? {
      var resp := send(url, cookies).value;
      if IsRedirect(resp) {
        var jar := TakeCookies(cookies, resp);
        RequestsBounded(send, baseUrl, jar, ResolveLocation(baseUrl, url, resp.location[0]), redirectCount + 1);
      }
    }
  }

  /**
   * A server that only ever redirects, never to a login page, ends in the
   * "Too many redirects" error after six requests.
   */
  lemma {:induction false} EndlessRedirectsFail(send: (string, seq<string>) -> Result<HttpResponse, string>, baseUrl: string,
                                                cookies: seq<string>, url: string, redirectCount: nat)
    requires redirectCount <= 6
    requires forall u, c :: send(u, c).Ok? && IsRedirect(send(u, c).value)
                            && !Contains(send(u, c).value.location[0], "/login")
    ensures var f := GetWithRedirects(send, baseUrl, cookies, url, redirectCount);
      f.result == Err(Http("Too many redirects")) && f.requests == 6 - redirectCount
    decreases 6 - redirectCount
  {
    if redirectCount <= 5 {
      var resp := send(url, cookies).value;
      var jar := TakeCookies(cookies, resp);
      EndlessRedirectsFail(send, baseUrl, jar, ResolveLocation(baseUrl, url, resp.location[0]), redirectCount + 1);
    }
  }

  /**
   * What a returned response can be: never a redirect with a `Location`, never
   * a `429`, and a `403` only when the jar is empty. Every rate limit
   * reported comes from a `429` (its `Retry-After` or 60) or from a `403` on
   * an authenticated request (60).
   */
  lemma {:induction false} ReturnedResponse(send: (string, seq<string>) -> Result<HttpResponse, string>, baseUrl: string,
                                            cookies: seq<string>, url: string, redirectCount: nat)
    ensures var f := GetWithRedirects(send, baseUrl, cookies, url, redirectCount);
      (f.result.Ok? ==>
         !IsRedirect(f.result.value) && f.result.value.status != 429
         && (f.result.value.status == 403 ==> f.cookies == []))
      && (f.result.Err? && f.result.error.RateLimit? ==>
            exists u, c :: send(u, c).Ok? && !IsRedirect(send(u, c).value)
              && ((send(u, c).value.status == 429
                   && f.result.error.retryAfter == RetryAfterSeconds(send(u, c).value.retryAfter))
                  || (send(u, c).value.status == 403 && f.result.error.retryAfter == 60)))
    decreases 6 - redirectCount
  {
    if redirectCount <= 5 && send(url, cookies).Ok? {
      var resp := send(url, cookies).value;
      if IsRedirect(resp) {
        var jar := TakeCookies(cookies, resp);
        ReturnedResponse(send, baseUrl, jar, ResolveLocation(baseUrl, url, resp.location[0]), redirectCount + 1);
      }
    }
  }
}
