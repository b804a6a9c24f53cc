/**
 * `LastFmEditVcrMatcher`: whether a request matches a recorded one. Method
 * and URL are compared when enabled, headers whose names mark them as
 * session data are ignored, and every other recorded header must be sent
 * with the same values. The body is never compared.
 */
module VcrMatcher {
  import opened Wrappers
  import opened Text

  /** The root page of the Last.fm site. */
  const LastFmRoot: string := "https:/" + "/www.last.fm/"

  /** The matcher's three switches. */
  datatype Matcher = Matcher(matchMethod: bool, matchUrl: bool, matchBody: bool)

  /** A recorded request: method, URL and its headers in the order they are visited. */
  datatype Recorded = Recorded(httpMethod: string, url: string, headers: seq<(string, seq<string>)>)

  /** `new`: method and URL compared, body not. */
  function New(): (m: Matcher)
    ensures m.matchMethod && m.matchUrl && !m.matchBody
  {
    Matcher(true, true, false)
  }

  /** `with_body`: only the body switch changes. */
  function WithBody(m: Matcher, matchBody: bool): (r: Matcher)
    ensures r.matchBody == matchBody && r.matchMethod == m.matchMethod && r.matchUrl == m.matchUrl
  {
    m.(matchBody := matchBody)
  }

  /** Header names holding any of these, once lower-cased, carry session data. */
  const UnstableTokens: seq<string> := ["cookie", "set-cookie", "authorization", "x-csrf-token", "csrf-token",
                                         "sessionid", "session", "x-session-id", "x-auth-token", "auth-token"]

  predicate IsUnstable(name: string) {
    exists i :: 0 <= i < |UnstableTokens| && Contains(ToLower(name), UnstableTokens[i])
  }

  /**
   * Whether the recorded headers, in turn, are each unstable or sent with
   * the same values. `sent(name)` is the request's values for a header, if
   * any; with `toleratesContentType` a GET may lack `content-type`.
   */
  function HeadersAgree(headers: seq<(string, seq<string>)>, sent: string -> Option<seq<string>>,
                        toleratesContentType: bool): (r: bool)
    ensures r <==> forall i :: 0 <= i < |headers| ==>
      IsUnstable(headers[i].0)
      || sent(headers[i].0) == Some(headers[i].1)
      || (toleratesContentType && sent(headers[i].0).None? && ToLower(headers[i].0) == "content-type")
    decreases |headers|
  {
    if headers == [] then true
    else
      var (name, values) := headers[0];
      var ok :=
        if IsUnstable(name) then true
        else match sent(name)
          case Some(v) => v == values
          case None => toleratesContentType && ToLower(name) == "content-type";
      ok && HeadersAgree(headers[1..], sent, toleratesContentType)
  }

  /** The method and URL checks. */
  predicate LineMatches(m: Matcher, httpMethod: string, url: string, recorded: Recorded) {
    !(m.matchMethod && httpMethod != recorded.httpMethod) && !(m.matchUrl && url != recorded.url)
  }

  /** `matches`: a live request, looked up header by header; a missing header is a mismatch. */
  function Matches(m: Matcher, httpMethod: string, url: string, sent: string -> Option<seq<string>>,
                   recorded: Recorded): (r: bool)
    ensures r <==> LineMatches(m, httpMethod, url, recorded)
                   && forall i :: 0 <= i < |recorded.headers| ==>
                        IsUnstable(recorded.headers[i].0) || sent(recorded.headers[i].0) == Some(recorded.headers[i].1)
  {
    LineMatches(m, httpMethod, url, recorded) && HeadersAgree(recorded.headers, sent, false)
  }

  /** The headers of a serialised request, as a map from name to values. */
  function Lookup(headers: map<string, seq<string>>): string -> Option<seq<string>> {
    name => if name in headers then Some(headers[name]) else None
  }

  /** `matches_serializable`: as `matches`, except that a GET may lack the recorded `content-type`. */
  function MatchesSerializable(m: Matcher, httpMethod: string, url: string, headers: map<string, seq<string>>,
                               recorded: Recorded): (r: bool)
    ensures r <==> LineMatches(m, httpMethod, url, recorded)
                   && forall i :: 0 <= i < |recorded.headers| ==>
                        var (name, values) := recorded.headers[i];
                        IsUnstable(name) || (name in headers && headers[name] == values)
                        || (httpMethod == "GET" && name !in headers && ToLower(name) == "content-type")
  {
    LineMatches(m, httpMethod, url, recorded) && HeadersAgree(recorded.headers, Lookup(headers), httpMethod == "GET")
  }

  /**
   * Only the recorded, stable headers matter: two requests that send the
   * same values for them match alike, whatever else they send.
   */
  lemma OnlyStableRecordedHeadersMatter(m: Matcher, httpMethod: string, url: string,
                                        sent1: string -> Option<seq<string>>, sent2: string -> Option<seq<string>>,
                                        recorded: Recorded)
    requires forall i :: 0 <= i < |recorded.headers| && !IsUnstable(recorded.headers[i].0) ==>
      sent1(recorded.headers[i].0) == sent2(recorded.headers[i].0)
    ensures Matches(m, httpMethod, url, sent1, recorded) == Matches(m, httpMethod, url, sent2, recorded)
  {
  }

  /** A request that sends every recorded header with its recorded values matches when method and URL do. */
  lemma SendingRecordedHeadersMatches(m: Matcher, httpMethod: string, url: string,
                                      sent: string -> Option<seq<string>>, recorded: Recorded)
    requires LineMatches(m, httpMethod, url, recorded)
    requires forall i :: 0 <= i < |recorded.headers| ==> sent(recorded.headers[i].0) == Some(recorded.headers[i].1)
    ensures Matches(m, httpMethod, url, sent, recorded)
    ensures forall h :: (forall i :: 0 <= i < |recorded.headers| ==> Lookup(h)(recorded.headers[i].0) == sent(recorded.headers[i].0))
                        ==> MatchesSerializable(m, httpMethod, url, h, recorded)
  {
  }

  /** With method matching on, a different method never matches; likewise for the URL. */
  lemma LineMismatchRejects(m: Matcher, httpMethod: string, url: string, sent: string -> Option<seq<string>>,
                            headers: map<string, seq<string>>, recorded: Recorded)
    requires (m.matchMethod && httpMethod != recorded.httpMethod) || (m.matchUrl && url != recorded.url)
    ensures !Matches(m, httpMethod, url, sent, recorded) && !MatchesSerializable(m, httpMethod, url, headers, recorded)
  {
  }

  /**
   * A GET recorded with a `content-type` and replayed without it matches
   * only through `matches_serializable`.
   */
  lemma ContentTypeOnlyToleratedWhenSerialised()
    ensures var recorded := Recorded("GET", LastFmRoot, [("content-type", ["text/html"])]);
      !Matches(New(), "GET", LastFmRoot, Lookup(map[]), recorded)
      && MatchesSerializable(New(), "GET", LastFmRoot, map[], recorded)
  {
    var name := "content-type";
    assert ToLower(name) == name;
    assert !IsUnstable(name) by {
      forall i | 0 <= i < |UnstableTokens| ensures !Contains(name, UnstableTokens[i]) {
        var t := UnstableTokens[i];
        forall j | 0 <= j <= |name| ensures !OccursAt(name, t, j) {
          if j + |t| <= |name| {
            assert name[j..j + |t|] != t by {
              assert |t| >= 6;
              assert name[j] != t[0] || name[j + 1] != t[1] || name[j + 2] != t[2];
            }
          }
        }
      }
    }
  }

  /** Session headers are skipped: "Cookie" and "X-CSRF-Token" are unstable. */
  lemma SessionHeadersUnstable()
    ensures IsUnstable("Cookie") && IsUnstable("X-CSRF-Token")
  {
    assert ToLower("Cookie") == "cookie";
    assert OccursAt("cookie", UnstableTokens[0], 0);
    assert ToLower("X-CSRF-Token") == "x-csrf-token";
    assert OccursAt("x-csrf-token", UnstableTokens[3], 0);
  }
}
