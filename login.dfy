/**
 * Logging in: how `Set-Cookie` headers update the cookie jar (only the
 * `name=value` pair is kept, as section 5.2 of RFC 6265 puts first in a
 * `Set-Cookie` value, and a newer cookie replaces any older one of the same
 * name), and how the login POST's response is judged.
 */
module Login {
  import opened Wrappers
  import opened Text
  import opened Seqs
  import opened LastFmTypes
  import opened Sessions

  /** The text before the first `c`: `split(c).next()`. */
  function BeforeFirst(s: string, c: char): (r: string)
    ensures r <= s && c !in r
    ensures |r| < |s| ==> s[|r|] == c
  {
    match IndexOf(s, c)
    case None => s
    case Some(i) => s[..i]
  }

  /** The `name=value` pair of a `Set-Cookie` value: everything before the first `;`. */
  function CookiePair(header: string): string {
    BeforeFirst(header, ';')
  }

  /** A cookie's name: everything before the first `=`. */
  function CookieName(pair: string): string {
    BeforeFirst(pair, '=')
  }

  /** `retain`: the cookies that do not start with `prefix`, in their order. */
  function Without(jar: seq<string>, prefix: string): (r: seq<string>)
    ensures forall c :: c in r <==> c in jar && !(prefix <= c)
    ensures |r| <= |jar|
  {
    if jar == [] then []
    else (if prefix <= jar[0] then [] else [jar[0]]) + Without(jar[1..], prefix)
  }

  /** The cookies kept by `retain` stay in their relative order. */
  lemma {:induction false} WithoutIsSubsequence(jar: seq<string>, prefix: string)
    ensures IsSubsequence(Without(jar, prefix), jar)
    decreases |jar|
  {
    if jar != [] {
      WithoutIsSubsequence(jar[1..], prefix);
      var rest := Without(jar[1..], prefix);
      if !(prefix <= jar[0]) {
        assert Without(jar, prefix) == [jar[0]] + rest;
        assert ([jar[0]] + rest)[1..] == rest;
      } else {
        assert Without(jar, prefix) == rest;
        if rest != [] {
          assert rest[0] in rest && rest[0] != jar[0];
        }
      }
    }
  }

  /**
   * One `Set-Cookie` value taken into the jar: every cookie of the same name
   * is dropped and the new pair goes last.
   */
  function Absorb(jar: seq<string>, header: string): (r: seq<string>)
    ensures |r| >= 1 && r[|r| - 1] == CookiePair(header)
    ensures forall c :: c in r[..|r| - 1] <==> c in jar && !(CookieName(CookiePair(header)) + "=" <= c)
  {
    var pair := CookiePair(header);
    var r := Without(jar, CookieName(pair) + "=") + [pair];
    assert r[..|r| - 1] == Without(jar, CookieName(pair) + "=");
    r
  }

  /** Every `Set-Cookie` value taken into the jar, in header order. */
  function AbsorbAll(jar: seq<string>, headers: seq<string>): seq<string>
    decreases |headers|
  {
    if headers == [] then jar else AbsorbAll(Absorb(jar, headers[0]), headers[1..])
  }

  /**
   * `extract_cookies_from_response`: with no `Set-Cookie` header the jar is
   * unchanged; otherwise each value is taken in turn.
   */
  method ExtractCookiesFromResponse(setCookie: Option<seq<string>>, cookies: seq<string>) returns (jar: seq<string>)
    ensures setCookie.None? ==> jar == cookies
    ensures setCookie.Some? ==> jar == AbsorbAll(cookies, setCookie.value)
  {
    jar := cookies;
    if setCookie.Some? {
      var headers := setCookie.value;
      for i := 0 to |headers|
        invariant AbsorbAll(cookies, headers) == AbsorbAll(jar, headers[i..])
      {
        assert headers[i..][1..] == headers[i + 1..];
        var pair := CookiePair(headers[i]);
        var name := CookieName(pair);
        jar := Without(jar, name + "=");
        jar := jar + [pair];
      }
    }
  }

  /** A cookie that starts with `m=`, for a name `m`, has the name `m`. */
  lemma PrefixDeterminesName(m: string, v: string)
    requires '=' !in m && m + "=" <= v
    ensures CookieName(v) == m
  {
    assert v[|m|] == '=';
  }

  /** A cookie whose name is none of the headers' names is never dropped. */
  lemma {:induction false} OtherNamesSurvive(jar: seq<string>, headers: seq<string>, c: string)
    requires c in jar
    requires forall h :: h in headers ==> CookieName(CookiePair(h)) != CookieName(c)
    ensures c in AbsorbAll(jar, headers)
    decreases |headers|
  {
    if headers != [] {
      var h := headers[0];
      var m := CookieName(CookiePair(h));
      if m + "=" <= c {
        PrefixDeterminesName(m, c);
      }
      var next := Absorb(jar, h);
      assert c in next[..|next| - 1];
      assert forall h' :: h' in headers[1..] ==> h' in headers;
      OtherNamesSurvive(next, headers[1..], c);
    }
  }

  /** Headers of other names add no cookie of name `n`. */
  lemma {:induction false} NoNewCookieOfName(jar: seq<string>, headers: seq<string>, n: string, c: string)
    requires '=' !in n
    requires forall h :: h in headers ==> CookieName(CookiePair(h)) != n
    requires c in AbsorbAll(jar, headers) && n + "=" <= c
    ensures c in jar
    decreases |headers|
  {
    if headers != [] {
      var h := headers[0];
      var next := Absorb(jar, h);
      assert forall h' :: h' in headers[1..] ==> h' in headers;
      NoNewCookieOfName(next, headers[1..], n, c);
      if c !in next[..|next| - 1] {
        assert c == next[|next| - 1] by {
          assert next == next[..|next| - 1] + [next[|next| - 1]];
        }
        PrefixDeterminesName(n, c);
      }
    }
  }

  /**
   * The newest value for a name wins: after all headers are taken, the pair
   * of the last header named `n` is in the jar, and it is the only cookie
   * there starting with `n=`.
   */
  lemma {:induction false} NewestCookieWins(jar: seq<string>, headers: seq<string>, k: nat)
    requires k < |headers|
    requires forall j :: k < j < |headers| ==> CookieName(CookiePair(headers[j])) != CookieName(CookiePair(headers[k]))
    ensures var n := CookieName(CookiePair(headers[k]));
      CookiePair(headers[k]) in AbsorbAll(jar, headers)
      && forall c :: c in AbsorbAll(jar, headers) && n + "=" <= c ==> c == CookiePair(headers[k])
    decreases k
  {
    var next := Absorb(jar, headers[0]);
    if k == 0 {
      var pair := CookiePair(headers[0]);
      var n := CookieName(pair);
      var rest := headers[1..];
      assert forall h :: h in rest ==> CookieName(CookiePair(h)) != n by {
        forall h | h in rest ensures CookieName(CookiePair(h)) != n {
          var j :| 0 <= j < |rest| && rest[j] == h;
          assert headers[j + 1] == h;
        }
      }
      assert pair in next by {
        assert next[|next| - 1] == pair;
      }
      OtherNamesSurvive(next, rest, pair);
      forall c | c in AbsorbAll(jar, headers) && n + "=" <= c
        ensures c == pair
      {
        NoNewCookieOfName(next, rest, n, c);
        assert next == next[..|next| - 1] + [pair];
      }
    } else {
      assert forall j :: k - 1 < j < |headers[1..]| ==> headers[1..][j] == headers[j + 1];
      NewestCookieWins(next, headers[1..], k - 1);
    }
  }

  /** With at least one header, the last header's pair is the last cookie. */
  lemma {:induction false} LastHeaderLast(jar: seq<string>, headers: seq<string>)
    requires headers != []
    ensures var r := AbsorbAll(jar, headers); |r| >= 1 && r[|r| - 1] == CookiePair(headers[|headers| - 1])
    decreases |headers|
  {
    if |headers| > 1 {
      LastHeaderLast(Absorb(jar, headers[0]), headers[1..]);
    }
  }

  /** The cookies whose names are not in `names`, in jar order. */
  function OutsideNames(jar: seq<string>, names: set<string>): (r: seq<string>)
    ensures forall c :: c in r <==> c in jar && CookieName(c) !in names
  {
    if jar == [] then []
    else (if CookieName(jar[0]) in names then [] else [jar[0]]) + OutsideNames(jar[1..], names)
  }

  lemma {:induction false} OutsideNamesAppend(a: seq<string>, b: seq<string>, names: set<string>)
    ensures OutsideNames(a + b, names) == OutsideNames(a, names) + OutsideNames(b, names)
    decreases |a|
  {
    if a != [] {
      var head := if CookieName(a[0]) in names then [] else [a[0]];
      assert (a + b)[0] == a[0] && (a + b)[1..] == a[1..] + b;
      assert OutsideNames(a + b, names) == head + OutsideNames(a[1..] + b, names);
      OutsideNamesAppend(a[1..], b, names);
      assert head + (OutsideNames(a[1..], names) + OutsideNames(b, names))
          == (head + OutsideNames(a[1..], names)) + OutsideNames(b, names);
    } else {
      assert a + b == b;
    }
  }

  /** Dropping the cookies of a name in `names` leaves the others as they were. */
  lemma {:induction false} OutsideNamesWithout(jar: seq<string>, m: string, names: set<string>)
    requires m in names && '=' !in m
    ensures OutsideNames(Without(jar, m + "="), names) == OutsideNames(jar, names)
    decreases |jar|
  {
    if jar != [] {
      OutsideNamesWithout(jar[1..], m, names);
      var rest := Without(jar[1..], m + "=");
      if m + "=" <= jar[0] {
        PrefixDeterminesName(m, jar[0]);
        assert Without(jar, m + "=") == rest;
      } else {
        assert Without(jar, m + "=") == [jar[0]] + rest;
        OutsideNamesAppend([jar[0]], rest, names);
        assert ([jar[0]] + rest)[1..] == rest;
      }
    }
  }

  /**
   * The cookies of names no header uses keep their order: the jar after the
   * headers, cut down to those names, is the old jar cut down the same way.
   */
  lemma {:induction false} OtherNamesKeepOrder(jar: seq<string>, headers: seq<string>, names: set<string>)
    requires forall h :: h in headers ==> CookieName(CookiePair(h)) in names
    ensures OutsideNames(AbsorbAll(jar, headers), names) == OutsideNames(jar, names)
    decreases |headers|
  {
    if headers != [] {
      var pair := CookiePair(headers[0]);
      var m := CookieName(pair);
      assert m in names;
      OutsideNamesWithout(jar, m, names);
      OutsideNamesAppend(Without(jar, m + "="), [pair], names);
      assert OutsideNames([pair], names) == [];
      assert forall h :: h in headers[1..] ==> h in headers;
      OtherNamesKeepOrder(Absorb(jar, headers[0]), headers[1..], names);
    }
  }

  /** What the login POST's response shows, once its HTML has been read. */
  datatype LoginResponse = LoginResponse(
    status: nat,
    setCookie: Option<seq<string>>,
    /** A login form (or its user name field) is still on the page. */
    hasLoginForm: bool,
    /** The texts of the page's error elements, in page order. */
    errorTexts: seq<string>)

  /** The trimmed error texts that are not empty, in order. */
  function ErrorLines(texts: seq<string>): (r: seq<string>)
    ensures forall i :: 0 <= i < |r| ==> r[i] != "" && exists t :: t in texts && r[i] == Trim(t)
  {
    if texts == [] then []
    else (if Trim(texts[0]) != "" then [Trim(texts[0])] else []) + ErrorLines(texts[1..])
  }

  /** `parse_login_error`: the error texts joined with "; ", or a general hint when there are none. */
  function LoginErrorMessage(texts: seq<string>): (m: string)
    ensures ErrorLines(texts) == [] ==> m == "Login failed - please check your credentials"
    ensures ErrorLines(texts) != [] ==> m == "Login failed: " + Join(ErrorLines(texts), "; ")
  {
    var lines := ErrorLines(texts);
    if lines == [] then "Login failed - please check your credentials"
    else "Login failed: " + Join(lines, "; ")
  }

  /** A cookie that looks like a real Last.fm session: longer than 50 bytes in UTF-8. */
  predicate IsRealSessionCookie(cookie: string) {
    "sessionid=." <= cookie && Utf8Length(cookie) > 50
  }

  predicate HasRealSession(cookies: seq<string>) {
    exists i :: 0 <= i < |cookies| && IsRealSessionCookie(cookies[i])
  }

  /**
   * The decision at the end of `login`, on the jar after the response's
   * cookies are taken: 403 is an authentication failure; a real session
   * cookie with 302 or 200 is a success; otherwise a 200 without a login
   * form is a success and anything else a failure with the page's errors.
   */
  function LoginOutcome(username: string, csrfToken: string, baseUrl: string, jar: seq<string>,
                        response: LoginResponse): Result<Session, LastFmError>
  {
    var cookies := match response.setCookie
      case None => jar
      case Some(hs) => AbsorbAll(jar, hs);
    if response.status == 403 then Err(Auth(LoginErrorMessage(response.errorTexts)))
    else if HasRealSession(cookies) && (response.status == 302 || response.status == 200) then
      Ok(NewSession(username, cookies, Some(csrfToken), baseUrl))
    else if !response.hasLoginForm && response.status == 200 then
      Ok(NewSession(username, cookies, Some(csrfToken), baseUrl))
    else Err(Auth(LoginErrorMessage(response.errorTexts)))
  }

  /**
   * Login succeeds exactly when the status is 200 and either a real session
   * cookie arrived or no login form remains, or the status is 302 with a
   * real session cookie; a failure is always `Auth`. A success stores the
   * user name, the updated jar, the CSRF token and the base URL.
   */
  lemma LoginOutcomeCases(username: string, csrfToken: string, baseUrl: string, jar: seq<string>,
                          response: LoginResponse)
    ensures var cookies := if response.setCookie.None? then jar else AbsorbAll(jar, response.setCookie.value);
      var r := LoginOutcome(username, csrfToken, baseUrl, jar, response);
      (r.Ok? <==> (response.status == 200 && (HasRealSession(cookies) || !response.hasLoginForm))
                  || (response.status == 302 && HasRealSession(cookies)))
      && (r.Ok? ==> r.value == Session(username, cookies, Some(csrfToken), baseUrl))
      && (r.Err? ==> r.error == Auth(LoginErrorMessage(response.errorTexts)))
  {
  }

  /** A successful login with a real session cookie and a user name gives a valid session. */
  lemma RealSessionIsValid(username: string, csrfToken: string, baseUrl: string, jar: seq<string>,
                           response: LoginResponse)
    requires |username| > 0
    requires var r := LoginOutcome(username, csrfToken, baseUrl, jar, response);
      r.Ok? && HasRealSession(r.value.cookies)
    ensures IsValid(LoginOutcome(username, csrfToken, baseUrl, jar, response).value)
  {
    var s := LoginOutcome(username, csrfToken, baseUrl, jar, response).value;
    var i :| 0 <= i < |s.cookies| && IsRealSessionCookie(s.cookies[i]);
    assert SessionIdPrefix <= s.cookies[i] by {
      assert s.cookies[i][..|SessionIdPrefix|] == "sessionid=."[..|SessionIdPrefix|];
    }
    ValidWithSessionCookie(s, i);
  }
}
