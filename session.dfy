/**
 * Stored login state: `LastFmEditSession` in the client's types and the
 * `ClientSession` record, with the same validity test. The test only looks at
 * the stored values; it does not ask the server whether the session is alive.
 */
module Sessions {
  import opened Wrappers
  import Text

  /** The origin of the Last.fm site, as a session records it. */
  const LastFmOrigin: string := "https:/" + "/www.last.fm"

  /** The cookie prefix of Last.fm's session cookie. */
  const SessionIdPrefix: string := "sessionid="

  /**
   * A real session cookie: named `sessionid` and longer than 50 bytes
   * (`str::len` counts the bytes of the UTF-8 encoding).
   */
  predicate IsSessionCookie(cookie: string) {
    SessionIdPrefix <= cookie && Text.Utf8Length(cookie) > 50
  }

  /** `LastFmEditSession` (and `ClientSession`, which holds the same four values). */
  datatype Session = Session(
    username: string,
    cookies: seq<string>,
    csrfToken: Option<string>,
    baseUrl: string)

  /** `ClientSession::new` / `LastFmEditSession::new`: stores its four arguments as given. */
  function NewSession(username: string, cookies: seq<string>, csrfToken: Option<string>,
                      baseUrl: string): (s: Session)
    ensures s.username == username && s.cookies == cookies
    ensures s.csrfToken == csrfToken && s.baseUrl == baseUrl
  {
    Session(username, cookies, csrfToken, baseUrl)
  }

  /**
   * `is_valid`: a user name, at least one cookie, a CSRF token, and among the
   * cookies a real session cookie.
   */
  function IsValid(s: Session): (ok: bool)
    ensures ok ==> |s.username| > 0 && |s.cookies| > 0 && s.csrfToken.Some?
    ensures ok ==> exists i :: 0 <= i < |s.cookies| && IsSessionCookie(s.cookies[i])
  {
    |s.username| > 0
    && |s.cookies| > 0
    && s.csrfToken.Some?
    && exists i :: 0 <= i < |s.cookies| && IsSessionCookie(s.cookies[i])
  }

  /** A cookie jar holding a real session cookie makes the session valid once the rest is present. */
  lemma ValidWithSessionCookie(s: Session, i: nat)
    requires i < |s.cookies| && IsSessionCookie(s.cookies[i])
    requires |s.username| > 0 && s.csrfToken.Some?
    ensures IsValid(s)
  {
  }

  /** Adding cookies never invalidates a valid session. */
  lemma MoreCookiesStayValid(s: Session, extra: seq<string>)
    requires IsValid(s)
    ensures IsValid(s.(cookies := s.cookies + extra))
  {
    var i :| 0 <= i < |s.cookies| && IsSessionCookie(s.cookies[i]);
    assert (s.cookies + extra)[i] == s.cookies[i];
  }

  /** A session without a session cookie of the right length is invalid. */
  lemma ShortSessionCookieInvalid(s: Session)
    requires forall i :: 0 <= i < |s.cookies| ==> Text.Utf8Length(s.cookies[i]) <= 50
    ensures !IsValid(s)
  {
  }

  /** The test cookie of the source's validity example: a session id of 76 ASCII characters. */
  const ExampleCookie: string := SessionIdPrefix + ".eJy1234567890abcdefghijklmnopqrstuvwxyzABCDEFGHIJKLMNOPQRSTUVWXYZ"

  /** The session of the source's own validity example is valid, and the empty one is not. */
  lemma ExampleSessions()
    ensures IsValid(NewSession("testuser", [ExampleCookie], Some("csrf_token_123"), LastFmOrigin))
    ensures !IsValid(NewSession("", [], None, LastFmOrigin))
  {
    assert SessionIdPrefix <= ExampleCookie;
    ValidWithSessionCookie(NewSession("testuser", [ExampleCookie], Some("csrf_token_123"), LastFmOrigin), 0);
  }
}
