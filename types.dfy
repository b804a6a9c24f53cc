/**
 * The records the Last.fm client passes around: scrobbled tracks and albums,
 * pages of them, edit requests in their loose (`ScrobbleEdit`) and fully
 * specified (`ExactScrobbleEdit`) forms, edit responses, and the client's
 * error type with its display text.
 */
module LastFmTypes {
  import opened Wrappers
  import Text

  /** A scrobbled (or listed) track. `timestamp` is a Unix time in seconds. */
  datatype Track = Track(
    name: string,
    artist: string,
    playcount: nat,
    timestamp: Option<nat>,
    album: Option<string>,
    albumArtist: Option<string>)

  /** An album with its play count. */
  datatype Album = Album(
    name: string,
    artist: string,
    playcount: nat,
    timestamp: Option<nat>)

  /** One page of a paginated listing (`TrackPage`, `AlbumPage`, ...). */
  datatype Page<T> = Page(
    items: seq<T>,
    pageNumber: nat,
    hasNextPage: bool,
    totalPages: Option<nat>)

  /**
   * An edit request. The `*Original` fields identify the scrobbles to edit;
   * `None` means "look it up". The other name fields are the new values;
   * `None` means "keep the original".
   */
  datatype ScrobbleEdit = ScrobbleEdit(
    trackNameOriginal: Option<string>,
    albumNameOriginal: Option<string>,
    artistNameOriginal: string,
    albumArtistNameOriginal: Option<string>,
    trackName: Option<string>,
    albumName: Option<string>,
    artistName: string,
    albumArtistName: Option<string>,
    timestamp: Option<nat>,
    editAll: bool)

  /** A fully specified edit of one scrobble, as the edit form needs it. */
  datatype ExactScrobbleEdit = ExactScrobbleEdit(
    trackNameOriginal: string,
    albumNameOriginal: string,
    artistNameOriginal: string,
    albumArtistNameOriginal: string,
    trackName: string,
    albumName: string,
    artistName: string,
    albumArtistName: string,
    timestamp: nat,
    editAll: bool)

  /** The outcome of one submitted edit. */
  datatype SingleEditResponse = SingleEditResponse(
    success: bool,
    message: Option<string>,
    albumInfo: Option<string>,
    exactScrobbleEdit: ExactScrobbleEdit)

  /** The outcomes of every edit that one request resulted in. */
  datatype EditResponse = EditResponse(individualResults: seq<SingleEditResponse>)

  /** The client's error type. */
  datatype LastFmError =
    | Http(text: string)
    | Auth(text: string)
    | CsrfNotFound
    | Parse(text: string)
    | RateLimit(retryAfter: nat)
    | EditFailed(text: string)
    | Io(text: string)

  /** The display text of an error (`to_string()`). */
  function ErrorMessage(e: LastFmError): (r: string)
    ensures e.Http? ==> r == "HTTP error: " + e.text
    ensures e.Auth? ==> r == "Authentication failed: " + e.text
    ensures e.Parse? ==> r == "Failed to parse response: " + e.text
    ensures e.EditFailed? ==> r == "Edit failed: " + e.text
    ensures e.Io? ==> r == "IO error: " + e.text
    ensures e.CsrfNotFound? ==> r == "CSRF token not found"
    ensures e.RateLimit? ==> r == "Rate limited, retry after " + Text.NatToString(e.retryAfter) + " seconds"
    ensures |r| > 0
  {
    match e
    case Http(t) => "HTTP error: " + t
    case Auth(t) => "Authentication failed: " + t
    case CsrfNotFound => "CSRF token not found"
    case Parse(t) => "Failed to parse response: " + t
    case RateLimit(s) => "Rate limited, retry after " + Text.NatToString(s) + " seconds"
    case EditFailed(t) => "Edit failed: " + t
    case Io(t) => "IO error: " + t
  }

  /** Different errors never display the same text: the text tells the kind and its detail. */
  lemma ErrorMessageInjective(a: LastFmError, b: LastFmError)
    requires ErrorMessage(a) == ErrorMessage(b)
    ensures a == b
  {
    var r := ErrorMessage(a);
    // The first character tells the kind.
    assert r[0] == ErrorMessage(b)[0];
    match a
    case Http(t) => assert t == r[|"HTTP error: "|..];
    case Auth(t) => assert t == r[|"Authentication failed: "|..];
    case CsrfNotFound =>
    case Parse(t) => assert t == r[|"Failed to parse response: "|..];
    case EditFailed(t) => assert t == r[|"Edit failed: "|..];
    case Io(t) => assert t == r[|"IO error: "|..];
    case RateLimit(s) =>
      var prefix := "Rate limited, retry after ";
      var digits := r[|prefix|..|r| - |" seconds"|];
      assert digits == Text.NatToString(s);
      assert digits == Text.NatToString(b.retryAfter);
      Text.NatToStringValue(s);
      Text.NatToStringValue(b.retryAfter);
  }
}
