/**
 * Constructors and builders of `ScrobbleEdit` and `ExactScrobbleEdit`, the
 * edit form's field map, and the overlay that applies a user's requested
 * changes to a discovered exact edit.
 */
module ScrobbleEdits {
  import opened Wrappers
  import opened LastFmTypes
  import Text

  /** Every new value of `e` equals its original. */
  predicate KeepsOriginals(e: ScrobbleEdit) {
    e.trackName == e.trackNameOriginal
    && e.albumName == e.albumNameOriginal
    && e.artistName == e.artistNameOriginal
    && e.albumArtistName == e.albumArtistNameOriginal
  }

  /** `ScrobbleEdit::from_track_info`: an edit that changes nothing yet. */
  function FromTrackInfo(track: string, album: string, artist: string, timestamp: nat): (r: ScrobbleEdit)
    ensures KeepsOriginals(r) && !r.editAll
    ensures r.trackNameOriginal == Some(track) && r.albumNameOriginal == Some(album)
    ensures r.artistNameOriginal == artist && r.albumArtistNameOriginal == Some(artist)
    ensures r.timestamp == Some(timestamp)
  {
    ScrobbleEdit(Some(track), Some(album), artist, Some(artist),
                 Some(track), Some(album), artist, Some(artist), Some(timestamp), false)
  }

  /** `with_track_name`: sets the new track name and nothing else. */
  function WithTrackName(e: ScrobbleEdit, name: string): (r: ScrobbleEdit)
    ensures r.trackName == Some(name)
    ensures r.(trackName := e.trackName) == e
  {
    e.(trackName := Some(name))
  }

  /** `with_album_name`: sets the new album name and nothing else. */
  function WithAlbumName(e: ScrobbleEdit, name: string): (r: ScrobbleEdit)
    ensures r.albumName == Some(name)
    ensures r.(albumName := e.albumName) == e
  {
    e.(albumName := Some(name))
  }

  /** `with_artist_name`: sets the new artist and, with it, the new album artist. */
  function WithArtistName(e: ScrobbleEdit, name: string): (r: ScrobbleEdit)
    ensures r.artistName == name && r.albumArtistName == Some(name)
    ensures r.(artistName := e.artistName, albumArtistName := e.albumArtistName) == e
  {
    e.(artistName := name, albumArtistName := Some(name))
  }

  /** `with_edit_all`: sets the edit-all flag and nothing else. */
  function WithEditAll(e: ScrobbleEdit, editAll: bool): (r: ScrobbleEdit)
    ensures r.editAll == editAll
    ensures r.(editAll := e.editAll) == e
  {
    e.(editAll := editAll)
  }

  /** `with_minimal_info`: a single-scrobble edit whose new values equal the originals. */
  function WithMinimalInfo(track: string, artist: string, album: string, timestamp: nat): (r: ScrobbleEdit)
    ensures KeepsOriginals(r) && !r.editAll
    ensures r.trackNameOriginal == Some(track) && r.albumNameOriginal == Some(album)
    ensures r.artistNameOriginal == artist && r.albumArtistNameOriginal == Some(artist)
    ensures r.timestamp == Some(timestamp)
  {
    ScrobbleEdit(Some(track), Some(album), artist, Some(artist),
                 Some(track), Some(album), artist, Some(artist), Some(timestamp), false)
  }

  /** `from_track_and_artist`: album names and the timestamp are left for lookup. */
  function FromTrackAndArtist(track: string, artist: string): (r: ScrobbleEdit)
    ensures r.trackNameOriginal == Some(track) && r.trackName == Some(track)
    ensures r.artistNameOriginal == artist && r.artistName == artist
    ensures r.albumNameOriginal.None? && r.albumName.None? && r.albumArtistNameOriginal.None?
    ensures r.albumArtistName == Some(artist)
    ensures r.timestamp.None? && !r.editAll
  {
    ScrobbleEdit(Some(track), None, artist, None, Some(track), None, artist, Some(artist), None, false)
  }

  /** `for_artist`: renames an artist everywhere; no track or album is pinned. */
  function ForArtist(oldArtist: string, newArtist: string): (r: ScrobbleEdit)
    ensures r.editAll
    ensures r.trackNameOriginal.None? && r.trackName.None?
    ensures r.albumNameOriginal.None? && r.albumName.None? && r.albumArtistNameOriginal.None?
    ensures r.artistNameOriginal == oldArtist && r.artistName == newArtist
    ensures r.albumArtistName == Some(newArtist) && r.timestamp.None?
  {
    ScrobbleEdit(None, None, oldArtist, None, None, None, newArtist, Some(newArtist), None, true)
  }

  /** `for_album`: moves one album to another artist; the album name is kept. */
  function ForAlbum(album: string, oldArtist: string, newArtist: string): (r: ScrobbleEdit)
    ensures r.editAll
    ensures r.trackNameOriginal.None? && r.trackName.None?
    ensures r.albumNameOriginal == Some(album) && r.albumName == Some(album)
    ensures r.artistNameOriginal == oldArtist && r.albumArtistNameOriginal == Some(oldArtist)
    ensures r.artistName == newArtist && r.albumArtistName.None? && r.timestamp.None?
  {
    ScrobbleEdit(None, Some(album), oldArtist, Some(oldArtist), None, Some(album), newArtist, None, None, true)
  }

  /** `ExactScrobbleEdit::to_scrobble_edit`: every value becomes present. */
  function ToScrobbleEdit(x: ExactScrobbleEdit): (r: ScrobbleEdit)
    ensures r.trackNameOriginal == Some(x.trackNameOriginal) && r.trackName == Some(x.trackName)
    ensures r.albumNameOriginal == Some(x.albumNameOriginal) && r.albumName == Some(x.albumName)
    ensures r.artistNameOriginal == x.artistNameOriginal && r.artistName == x.artistName
    ensures r.albumArtistNameOriginal == Some(x.albumArtistNameOriginal)
    ensures r.albumArtistName == Some(x.albumArtistName)
    ensures r.timestamp == Some(x.timestamp) && r.editAll == x.editAll
  {
    ScrobbleEdit(Some(x.trackNameOriginal), Some(x.albumNameOriginal), x.artistNameOriginal,
                 Some(x.albumArtistNameOriginal), Some(x.trackName), Some(x.albumName),
                 x.artistName, Some(x.albumArtistName), Some(x.timestamp), x.editAll)
  }

  /**
   * Applies a requested edit to a discovered exact edit: the artist is always
   * replaced and the edit-all flag copied; track, album and album artist are
   * replaced only when the request gives them.
   */
  function Overlay(found: ExactScrobbleEdit, request: ScrobbleEdit): (r: ExactScrobbleEdit)
    ensures r.trackNameOriginal == found.trackNameOriginal
    ensures r.albumNameOriginal == found.albumNameOriginal
    ensures r.artistNameOriginal == found.artistNameOriginal
    ensures r.albumArtistNameOriginal == found.albumArtistNameOriginal
    ensures r.timestamp == found.timestamp
    ensures r.trackName == request.trackName.UnwrapOr(found.trackName)
    ensures r.albumName == request.albumName.UnwrapOr(found.albumName)
    ensures r.artistName == request.artistName
    ensures r.albumArtistName == request.albumArtistName.UnwrapOr(found.albumArtistName)
    ensures r.editAll == request.editAll
  {
    var withTrack := if request.trackName.Some? then found.(trackName := request.trackName.value) else found;
    var withAlbum := if request.albumName.Some? then withTrack.(albumName := request.albumName.value) else withTrack;
    var withArtist := withAlbum.(artistName := request.artistName);
    var withAlbumArtist :=
      if request.albumArtistName.Some? then withArtist.(albumArtistName := request.albumArtistName.value)
      else withArtist;
    withAlbumArtist.(editAll := request.editAll)
  }

  /** Overlaying the same request twice is overlaying it once. */
  lemma OverlayIdempotent(found: ExactScrobbleEdit, request: ScrobbleEdit)
    ensures Overlay(Overlay(found, request), request) == Overlay(found, request)
  {
  }

  /**
   * Overlaying a fully specified request made from an exact edit with the same
   * originals yields exactly that exact edit.
   */
  lemma OverlayOwnRequest(found: ExactScrobbleEdit, target: ExactScrobbleEdit)
    requires found.trackNameOriginal == target.trackNameOriginal
    requires found.albumNameOriginal == target.albumNameOriginal
    requires found.artistNameOriginal == target.artistNameOriginal
    requires found.albumArtistNameOriginal == target.albumArtistNameOriginal
    requires found.timestamp == target.timestamp
    ensures Overlay(found, ToScrobbleEdit(target)) == target
  {
  }

  /** The fields of the edit form, named by `FieldName`. */
  datatype FormField =
    | CsrfMiddlewareToken
    | TrackNameOriginal | TrackName
    | ArtistNameOriginal | ArtistName
    | AlbumNameOriginal | AlbumName
    | AlbumArtistNameOriginal | AlbumArtistName
    | Timestamp | EditAll | Submit | Ajax

  /** The form key under which a field is posted. */
  function FieldName(f: FormField): string {
    match f
    case CsrfMiddlewareToken => "csrfmiddlewaretoken"
    case TrackNameOriginal => "track_name_original"
    case TrackName => "track_name"
    case ArtistNameOriginal => "artist_name_original"
    case ArtistName => "artist_name"
    case AlbumNameOriginal => "album_name_original"
    case AlbumName => "album_name"
    case AlbumArtistNameOriginal => "album_artist_name_original"
    case AlbumArtistName => "album_artist_name"
    case Timestamp => "timestamp"
    case EditAll => "edit_all"
    case Submit => "submit"
    case Ajax => "ajax"
  }

  /** Distinct fields are posted under distinct keys. */
  lemma FieldNameInjective(f: FormField, g: FormField)
    ensures FieldName(f) == FieldName(g) ==> f == g
  {
  }

  /**
   * `ExactScrobbleEdit::build_form_data`: the edit form's fields, inserted one
   * by one. The flag `edit_all=1` is present exactly when the edit asks for it,
   * and the timestamp is posted in decimal.
   */
  method BuildFormData(x: ExactScrobbleEdit, csrfToken: string) returns (form: map<FormField, string>)
    ensures forall f: FormField :: f in form <==> (f != EditAll || x.editAll)
    ensures form[CsrfMiddlewareToken] == csrfToken
    ensures form[TrackNameOriginal] == x.trackNameOriginal && form[TrackName] == x.trackName
    ensures form[ArtistNameOriginal] == x.artistNameOriginal && form[ArtistName] == x.artistName
    ensures form[AlbumNameOriginal] == x.albumNameOriginal && form[AlbumName] == x.albumName
    ensures form[AlbumArtistNameOriginal] == x.albumArtistNameOriginal
    ensures form[AlbumArtistName] == x.albumArtistName
    ensures form[Timestamp] == Text.NatToString(x.timestamp)
    ensures x.editAll ==> form[EditAll] == "1"
    ensures form[Submit] == "edit-scrobble" && form[Ajax] == "1"
  {
    var stamp := Text.NatToString(x.timestamp);
    form := map[CsrfMiddlewareToken := csrfToken,
                TrackNameOriginal := x.trackNameOriginal,
                TrackName := x.trackName,
                ArtistNameOriginal := x.artistNameOriginal,
                ArtistName := x.artistName,
                AlbumNameOriginal := x.albumNameOriginal,
                AlbumName := x.albumName,
                AlbumArtistNameOriginal := x.albumArtistNameOriginal,
                AlbumArtistName := x.albumArtistName,
                Timestamp := stamp];
    if x.editAll {
      form := form[EditAll := "1"];
    }
    form := form[Submit := "edit-scrobble"][Ajax := "1"];
  }
}
