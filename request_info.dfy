/**
 * `RequestInfo`: the method, URL, query parameters and path of an outgoing
 * request, split out of the URL text for the client's request events, and its
 * one-line description.
 *
 * The query is split as section 3.4 of RFC 3986 lays it out: after the first
 * `?`, `&`-separated `key=value` pairs. No percent-decoding is done.
 */
module RequestInfos {
  import opened Wrappers
  import opened Text

  /** The two URL schemes whose origin a request path drops. */
  const HttpScheme: string := "http:/" + "/"
  const HttpsScheme: string := "https:/" + "/"

  datatype RequestInfo = RequestInfo(
    httpMethod: string,
    uri: string,
    queryParams: seq<(string, string)>,
    path: string)

  /**
   * One `&`-separated piece of a query: split at its first `=`; a piece
   * without `=` is a key with an empty value; an empty piece is dropped.
   */
  function ParsePair(pair: string): (r: Option<(string, string)>)
    ensures r.None? <==> pair == []
    ensures r.Some? && '=' in pair ==> r.value.0 + "=" + r.value.1 == pair && '=' !in r.value.0
    ensures r.Some? && '=' !in pair ==> r.value == (pair, "")
  {
    match SplitOnce(pair, '=')
    case Some(kv) => Some(kv)
    case None => if pair != [] then Some((pair, "")) else None
  }

  /** The parameters of a list of query pieces, in order. */
  function ParsePairs(pieces: seq<string>): (r: seq<(string, string)>)
    ensures |r| <= |pieces|
  {
    if |pieces| == 0 then []
    else
      (match ParsePair(pieces[0]) case Some(kv) => [kv] case None => [])
      + ParsePairs(pieces[1..])
  }

  /** The parameters of a query string (the text after `?`). */
  function ParseQuery(query: string): seq<(string, string)> {
    ParsePairs(Split(query, '&'))
  }

  /** `key=value`. */
  function RenderParam(kv: (string, string)): string {
    kv.0 + "=" + kv.1
  }

  function RenderedParams(params: seq<(string, string)>): (r: seq<string>)
    ensures |r| == |params| && forall i :: 0 <= i < |params| ==> r[i] == RenderParam(params[i])
  {
    seq(|params|, i requires 0 <= i < |params| => RenderParam(params[i]))
  }

  /** The query string of a list of parameters: the rendered pairs joined by `&`. */
  function RenderQuery(params: seq<(string, string)>): string {
    Join(RenderedParams(params), "&")
  }

  /** A parameter that survives a render and a parse: no `&` anywhere and no `=` in its key. */
  predicate PlainParam(kv: (string, string)) {
    '&' !in kv.0 && '=' !in kv.0 && '&' !in kv.1
  }

  lemma ParseRenderedPair(kv: (string, string))
    requires '=' !in kv.0
    ensures ParsePair(RenderParam(kv)) == Some(kv)
  {
    var s := RenderParam(kv);
    assert s[|kv.0|] == '=';
    assert s[..|kv.0|] == kv.0;
    assert s[|kv.0| + 1..] == kv.1;
  }

  lemma {:induction false} ParseRenderedPairs(params: seq<(string, string)>)
    requires forall i :: 0 <= i < |params| ==> '=' !in params[i].0
    ensures ParsePairs(RenderedParams(params)) == params
    decreases |params|
  {
    if |params| > 0 {
      ParseRenderedPair(params[0]);
      assert RenderedParams(params)[1..] == RenderedParams(params[1..]);
      ParseRenderedPairs(params[1..]);
    }
  }

  /** Parsing a rendered query gives back its parameters, in order. */
  lemma QueryRoundTrip(params: seq<(string, string)>)
    requires forall i :: 0 <= i < |params| ==> PlainParam(params[i])
    ensures ParseQuery(RenderQuery(params)) == params
  {
    var pieces := RenderedParams(params);
    if |params| == 0 {
      assert Split(RenderQuery(params), '&') == [""];
    } else {
      forall i | 0 <= i < |pieces| ensures '&' !in pieces[i] {
        assert pieces[i] == params[i].0 + "=" + params[i].1;
      }
      SplitJoin(pieces, '&');
      ParseRenderedPairs(params);
    }
  }

  /**
   * The path of a URL without its scheme and host: for `http://` and
   * `https://` URLs, the text from the first `/` after the host, or `/` when
   * there is none; any other text is already a path.
   */
  function StripOrigin(path: string): (r: string)
    ensures !(HttpScheme <= path) && !(HttpsScheme <= path) ==> r == path
    ensures (HttpScheme <= path || HttpsScheme <= path) ==> |r| > 0 && r[0] == '/'
  {
    if HttpScheme <= path || HttpsScheme <= path then
      var rest := if HttpsScheme <= path then path[8..] else path[7..];
      match IndexOf(rest, '/')
      case Some(k) => rest[k..]
      case None => "/"
    else path
  }

  /** For a scheme, a host without `/` and a path that starts with `/`, only the path is kept. */
  lemma StripOriginOfUrl(scheme: string, host: string, p: string)
    requires scheme == HttpScheme || scheme == HttpsScheme
    requires '/' !in host
    requires p == [] || p[0] == '/'
    ensures StripOrigin(scheme + host + p) == if p == [] then "/" else p
  {
    var url := scheme + host + p;
    assert |HttpScheme| == 7 && |HttpsScheme| == 8;
    assert url == scheme + (host + p);
    assert scheme <= url;
    if scheme == HttpScheme {
      assert url[4] == ':' && HttpsScheme[4] == 's';
    }
    var rest := url[|scheme|..];
    assert rest == host + p by {
      assert (scheme + (host + p))[|scheme|..] == host + p;
    }
    if p != [] {
      assert rest[|host|] == '/';
      assert IndexOf(rest, '/') == Some(|host|);
      assert rest[|host|..] == p;
    } else {
      assert rest == host;
    }
  }

  /**
   * The path extraction as the source writes it: both schemes skip 8 bytes,
   * one more than `http://` has. `None` is the panic of the byte slice
   * `path[8..]`: on an `http://` URL it runs past the end when nothing
   * follows the scheme, and it splits a character when the one after the
   * scheme takes more than one byte in UTF-8. Otherwise the first 8 bytes
   * are 8 ASCII characters, and since `/` is one byte, counting characters
   * from there finds the same `/` that the source's byte offset does.
   */
  function PathAsWritten(path: string): (r: Option<string>)
    ensures r.None? <==> HttpScheme <= path && (|path| < 8 || !IsAscii(path[7]))
  {
    if HttpScheme <= path || HttpsScheme <= path then
      if |path| < 8 || !IsAscii(path[7]) then
        assert path[4] == ':';
        None
      else
        match IndexOf(path[8..], '/')
        case Some(k) => Some(path[8 + k..])
        case None => Some("/")
    else Some(path)
  }

  /** Past the eighth byte of `http://` + host + path lie the host's tail and the path. */
  lemma PathAsWrittenHttp(host: string, p: string)
    requires '/' !in host && host != [] && IsAscii(host[0])
    requires p == [] || p[0] == '/'
    ensures PathAsWritten(HttpScheme + host + p) == Some(if p == [] then "/" else p)
  {
    var url := HttpScheme + host + p;
    assert HttpScheme <= url && url[7] == host[0];
    var rest := url[8..];
    assert rest == host[1..] + p;
    assert '/' !in host[1..];
    if p != [] {
      assert rest == host[1..] + ['/'] + p[1..];
      Text.IndexOfAfterFree(host[1..], '/', p[1..]);
      assert url[8 + |host| - 1..] == p;
    }
  }

  /**
   * With a non-empty host the source's extraction gives the intended path,
   * provided an `http://` host starts with a one-byte character.
   */
  lemma PathAsWrittenAgrees(scheme: string, host: string, p: string)
    requires scheme == HttpScheme || scheme == HttpsScheme
    requires '/' !in host && host != []
    requires scheme == HttpScheme ==> IsAscii(host[0])
    requires p == [] || p[0] == '/'
    ensures PathAsWritten(scheme + host + p) == Some(StripOrigin(scheme + host + p))
  {
    StripOriginOfUrl(scheme, host, p);
    if scheme == HttpScheme {
      PathAsWrittenHttp(host, p);
    } else {
      var url := scheme + host + p;
      assert scheme <= url;
    }
  }

  /** With an empty host the source's extraction panics on `http://` and loses the path of `http:///x`. */
  lemma PathAsWrittenEmptyHost()
    ensures PathAsWritten(HttpScheme) == None
    ensures StripOrigin(HttpScheme) == "/"
    ensures PathAsWritten(HttpScheme + "/x") == Some("/")
    ensures StripOrigin(HttpScheme + "/x") == "/x"
  {
    BareHttpScheme();
    HttpSchemeSlashX();
  }

  /**
   * A host that starts with a character of more than one byte makes the
   * source's slice at byte 8 split that character, which panics, while the
   * intended extraction finds the path.
   */
  lemma PathAsWrittenSplitsChar()
    ensures PathAsWritten(HttpScheme + "\U{E9}/x") == None
    ensures StripOrigin(HttpScheme + "\U{E9}/x") == "/x"
  {
    var url := HttpScheme + "\U{E9}/x";
    assert url[7] == '\U{E9}' && !IsAscii(url[7]);
    assert HttpScheme <= url;
    assert url[4] == ':' && HttpsScheme[4] == 's';
    assert url[7..] == "\U{E9}/x";
    assert IndexOf("\U{E9}/x", '/') == Some(1);
    assert url[8..] == "/x";
  }

  lemma BareHttpScheme()
    ensures PathAsWritten(HttpScheme) == None && StripOrigin(HttpScheme) == "/"
  {
    assert HttpScheme <= HttpScheme;
    assert HttpScheme[7..] == [];
  }

  lemma HttpSchemeSlashX()
    ensures PathAsWritten(HttpScheme + "/x") == Some("/") && StripOrigin(HttpScheme + "/x") == "/x"
  {
    var url := HttpScheme + "/x";
    assert url == "http:///x";
    assert HttpScheme <= url;
    assert url[8..] == "x";
    assert url[7..] == "/x";
    assert url[4] == ':' && HttpsScheme[4] == 's';
    assert IndexOf("/x", '/') == Some(0);
  }

  /**
   * `RequestInfo::from_url_and_method`: the query is the text after the first
   * `?`, the path the text before it with scheme and host removed.
   */
  function FromUrlAndMethod(url: string, httpMethod: string): (r: RequestInfo)
    ensures r.httpMethod == httpMethod && r.uri == url
    ensures '?' !in url ==> r.queryParams == [] && r.path == StripOrigin(url)
  {
    match IndexOf(url, '?')
    case Some(q) => RequestInfo(httpMethod, url, ParseQuery(url[q + 1..]), StripOrigin(url[..q]))
    case None => RequestInfo(httpMethod, url, [], StripOrigin(url))
  }

  /** A path and a rendered query are split back apart. */
  lemma FromUrlRoundTrip(httpMethod: string, path: string, params: seq<(string, string)>)
    requires '?' !in path
    requires forall i :: 0 <= i < |params| ==> PlainParam(params[i])
    ensures FromUrlAndMethod(path + "?" + RenderQuery(params), httpMethod)
         == RequestInfo(httpMethod, path + "?" + RenderQuery(params), params, StripOrigin(path))
  {
    var url := path + "?" + RenderQuery(params);
    assert url[|path|] == '?';
    assert url[..|path|] == path;
    assert IndexOf(url, '?') == Some(|path|);
    assert url[|path| + 1..] == RenderQuery(params);
    QueryRoundTrip(params);
  }

  /**
   * `short_description`: method and path, then all parameters when there are
   * at most two, otherwise the first one followed by `...`.
   */
  function ShortDescription(r: RequestInfo): (d: string)
    ensures |r.queryParams| == 0 ==> d == r.httpMethod + " " + r.path
    ensures 0 < |r.queryParams| <= 2 ==> d == r.httpMethod + " " + r.path + "?" + RenderQuery(r.queryParams)
    ensures |r.queryParams| > 2 ==> d == r.httpMethod + " " + r.path + "?" + RenderParam(r.queryParams[0]) + "..."
  {
    var head := r.httpMethod + " " + r.path;
    if |r.queryParams| == 0 then head
    else if |r.queryParams| <= 2 then head + "?" + RenderQuery(r.queryParams)
    else head + "?" + RenderParam(r.queryParams[0]) + "..."
  }

  /** A request with one or two plain parameters is described by its own method and path-and-query. */
  lemma ShortDescriptionOfShortUrl(httpMethod: string, path: string, params: seq<(string, string)>)
    requires '?' !in path && !(HttpScheme <= path) && !(HttpsScheme <= path)
    requires 0 < |params| <= 2
    requires forall i :: 0 <= i < |params| ==> PlainParam(params[i])
    ensures ShortDescription(FromUrlAndMethod(path + "?" + RenderQuery(params), httpMethod))
         == httpMethod + " " + path + "?" + RenderQuery(params)
  {
    FromUrlRoundTrip(httpMethod, path, params);
  }

  /**
   * A request with more than two plain parameters is described by its own
   * method and path, then its query up to the first `&`, then `...`.
   */
  lemma ShortDescriptionOfLongUrl(httpMethod: string, path: string, params: seq<(string, string)>)
    requires '?' !in path && !(HttpScheme <= path) && !(HttpsScheme <= path)
    requires |params| > 2
    requires forall i :: 0 <= i < |params| ==> PlainParam(params[i])
    ensures var query := RenderQuery(params);
      IndexOf(query, '&').Some?
      && ShortDescription(FromUrlAndMethod(path + "?" + query, httpMethod))
         == httpMethod + " " + path + "?" + query[..IndexOf(query, '&').value] + "..."
  {
    FromUrlRoundTrip(httpMethod, path, params);
    FirstParamOfQuery(params);
  }

  /** The first `&` of a rendered query of plain parameters ends its first pair. */
  lemma FirstParamOfQuery(params: seq<(string, string)>)
    requires |params| > 1 && PlainParam(params[0])
    ensures IndexOf(RenderQuery(params), '&') == Some(|RenderParam(params[0])|)
    ensures RenderQuery(params)[..|RenderParam(params[0])|] == RenderParam(params[0])
  {
    var first := RenderParam(params[0]);
    var later := Join(RenderedParams(params)[1..], "&");
    assert RenderQuery(params) == first + ['&'] + later;
    assert '&' !in first by {
      assert first == params[0].0 + "=" + params[0].1;
    }
    IndexOfAfterFree(first, '&', later);
    assert (first + ['&'] + later)[..|first|] == first;
  }
}