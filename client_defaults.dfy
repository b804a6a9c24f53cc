/**
 * The default methods every Last.fm client gets: finding a scrobble by its
 * timestamp in the recent history, and the album and artist renames built
 * from the edit-request builders and submitted through `edit_scrobble`.
 */
module ClientDefaults {
  import opened Wrappers
  import opened Text
  import opened LastFmTypes
  import opened ScrobbleEdits
  import opened RecentSearch
  import opened ClientEdits
  import Discovery
  import DiscoveryCommon

  /** How many pages of recent scrobbles `find_scrobble_by_timestamp` searches. */
  const TimestampSearchPages: nat := 10

  /** A scrobble with exactly this timestamp; a scrobble without one never matches. */
  predicate HasTimestamp(t: Track, timestamp: nat) {
    t.timestamp == Some(timestamp)
  }

  /** The outcome of the search: the scrobble found, the fetch error, or a parse error when none matched. */
  function TimestampSearch(recent: nat -> Result<seq<Track>, LastFmError>, timestamp: nat): Result<Track, LastFmError> {
    match SearchPages(recent, t => HasTimestamp(t, timestamp), 1, TimestampSearchPages)
    case Err(e) => Err(e)
    case Ok(None) => Err(NotFoundError(timestamp))
    case Ok(Some(t)) => Ok(t)
  }

  /** `find_scrobble_by_timestamp`: pages 1 to 10 of the recent scrobbles, in order. */
  method FindScrobbleByTimestamp(recent: nat -> Result<seq<Track>, LastFmError>, timestamp: nat)
    returns (r: Result<Track, LastFmError>)
    ensures r == TimestampSearch(recent, timestamp)
  {
    var found := ScanPages(recent, t => HasTimestamp(t, timestamp), TimestampSearchPages);
    match found {
      case Err(e) => r := Err(e);
      case Ok(None) => r := Err(NotFoundError(timestamp));
      case Ok(Some(t)) => r := Ok(t);
    }
  }

  function NotFoundError(timestamp: nat): LastFmError {
    Parse("Could not find scrobble with timestamp " + NatToString(timestamp))
  }

  /**
   * A found scrobble carries the timestamp and is the first such scrobble on
   * pages 1 to 10. When those ten pages can all be fetched, the search fails
   * exactly when none of them holds a scrobble with the timestamp, and then
   * with the "not found" error.
   */
  lemma TimestampSearchFacts(recent: nat -> Result<seq<Track>, LastFmError>, timestamp: nat)
    ensures var r := TimestampSearch(recent, timestamp);
      r.Ok? ==> r.value.timestamp == Some(timestamp)
                && exists p :: 1 <= p <= TimestampSearchPages && recent(p).Ok?
                               && FirstWhere(recent(p).value, t => HasTimestamp(t, timestamp)) == Some(r.value)
    ensures (forall p :: 1 <= p <= TimestampSearchPages ==> recent(p).Ok?) ==>
      var r := TimestampSearch(recent, timestamp);
      (r.Err? <==> forall p, t :: 1 <= p <= TimestampSearchPages && t in recent(p).value ==> t.timestamp != Some(timestamp))
      && (r.Err? ==> r.error == NotFoundError(timestamp))
  {
    var test := t => HasTimestamp(t, timestamp);
    SearchPagesFacts(recent, test, 1, TimestampSearchPages);
    var s := SearchPages(recent, test, 1, TimestampSearchPages);
    if s.Err? {
      SearchPagesError(recent, test, 1, TimestampSearchPages);
    }
  }

  /** A search error is the error of fetching some page within the bound. */
  lemma {:induction false} SearchPagesError(recent: nat -> Result<seq<Track>, LastFmError>, test: Track -> bool,
                                            page: nat, maxPages: nat)
    requires SearchPages(recent, test, page, maxPages).Err?
    ensures exists p :: page <= p <= maxPages && recent(p) == Err(SearchPages(recent, test, page, maxPages).error)
    decreases maxPages + 1 - page
  {
    if recent(page).Ok? {
      SearchPagesError(recent, test, page + 1, maxPages);
    }
  }

  /** The request of `edit_album`: every scrobble of the album, renamed, artist unchanged. */
  function AlbumRename(oldAlbum: string, newAlbum: string, artist: string): (e: ScrobbleEdit)
    ensures e.editAll && e.albumNameOriginal == Some(oldAlbum) && e.albumName == Some(newAlbum)
    ensures e.artistNameOriginal == artist && e.artistName == artist && e.albumArtistNameOriginal == Some(artist)
    ensures e.trackNameOriginal.None? && e.trackName.None? && e.albumArtistName.None? && e.timestamp.None?
  {
    WithAlbumName(ForAlbum(oldAlbum, artist, artist), newAlbum)
  }

  /** The request of `edit_artist`: every scrobble of the artist, moved to the new artist. */
  function ArtistRename(oldArtist: string, newArtist: string): (e: ScrobbleEdit)
    ensures e.editAll && e.artistNameOriginal == oldArtist && e.artistName == newArtist
    ensures e.albumArtistName == Some(newArtist)
    ensures e.trackNameOriginal.None? && e.albumNameOriginal.None? && e.albumArtistNameOriginal.None?
  {
    ForArtist(oldArtist, newArtist)
  }

  /** The request of `edit_artist_for_track`: one track's scrobbles, with artist and album artist both new. */
  function ArtistRenameForTrack(track: string, oldArtist: string, newArtist: string): (e: ScrobbleEdit)
    ensures !e.editAll && e.trackNameOriginal == Some(track) && e.trackName == Some(track)
    ensures e.artistNameOriginal == oldArtist && e.artistName == newArtist && e.albumArtistName == Some(newArtist)
    ensures e.albumNameOriginal.None? && e.albumName.None? && e.albumArtistNameOriginal.None?
  {
    WithArtistName(FromTrackAndArtist(track, oldArtist), newArtist)
  }

  /** The request of `edit_artist_for_album`: every scrobble of the album, with artist and album artist both new. */
  function ArtistRenameForAlbum(album: string, oldArtist: string, newArtist: string): (e: ScrobbleEdit)
    ensures e.editAll && e.albumNameOriginal == Some(album) && e.albumName == Some(album)
    ensures e.artistNameOriginal == oldArtist && e.albumArtistNameOriginal == Some(oldArtist)
    ensures e.artistName == newArtist && e.albumArtistName == Some(newArtist) && e.trackNameOriginal.None?
  {
    WithArtistName(ForAlbum(album, oldArtist, oldArtist), newArtist)
  }

  /** `edit_album`. */
  method EditAlbum(oldAlbum: string, newAlbum: string, artist: string, library: Discovery.Library,
                   submit: ExactScrobbleEdit -> nat -> Result<bool, LastFmError>)
    returns (r: Result<EditResponse, LastFmError>, ghost discovered: Result<seq<ExactScrobbleEdit>, LastFmError>)
    ensures r == EditOutcome(AlbumRename(oldAlbum, newAlbum, artist), discovered, submit)
    ensures discovered.Ok? ==> forall e :: e in discovered.value ==> DiscoveryCommon.Shaped(e, AlbumRename(oldAlbum, newAlbum, artist))
  {
    r, discovered := EditScrobble(WithAlbumName(ForAlbum(oldAlbum, artist, artist), newAlbum), library, submit);
  }

  /** `edit_artist`. */
  method EditArtist(oldArtist: string, newArtist: string, library: Discovery.Library,
                    submit: ExactScrobbleEdit -> nat -> Result<bool, LastFmError>)
    returns (r: Result<EditResponse, LastFmError>, ghost discovered: Result<seq<ExactScrobbleEdit>, LastFmError>)
    ensures r == EditOutcome(ArtistRename(oldArtist, newArtist), discovered, submit)
    ensures discovered.Ok? ==> forall e :: e in discovered.value ==> DiscoveryCommon.Shaped(e, ArtistRename(oldArtist, newArtist))
  {
    r, discovered := EditScrobble(ForArtist(oldArtist, newArtist), library, submit);
  }

  /** `edit_artist_for_track`. */
  method EditArtistForTrack(track: string, oldArtist: string, newArtist: string, library: Discovery.Library,
                            submit: ExactScrobbleEdit -> nat -> Result<bool, LastFmError>)
    returns (r: Result<EditResponse, LastFmError>, ghost discovered: Result<seq<ExactScrobbleEdit>, LastFmError>)
    ensures r == EditOutcome(ArtistRenameForTrack(track, oldArtist, newArtist), discovered, submit)
    ensures discovered.Ok? ==>
      forall e :: e in discovered.value ==> DiscoveryCommon.Shaped(e, ArtistRenameForTrack(track, oldArtist, newArtist))
  {
    r, discovered := EditScrobble(WithArtistName(FromTrackAndArtist(track, oldArtist), newArtist), library, submit);
  }

  /** `edit_artist_for_album`. */
  method EditArtistForAlbum(album: string, oldArtist: string, newArtist: string, library: Discovery.Library,
                            submit: ExactScrobbleEdit -> nat -> Result<bool, LastFmError>)
    returns (r: Result<EditResponse, LastFmError>, ghost discovered: Result<seq<ExactScrobbleEdit>, LastFmError>)
    ensures r == EditOutcome(ArtistRenameForAlbum(album, oldArtist, newArtist), discovered, submit)
    ensures discovered.Ok? ==>
      forall e :: e in discovered.value ==> DiscoveryCommon.Shaped(e, ArtistRenameForAlbum(album, oldArtist, newArtist))
  {
    r, discovered := EditScrobble(WithArtistName(ForAlbum(album, oldArtist, oldArtist), newArtist), library, submit);
  }

  /**
   * What an artist rename submits: every edited scrobble gets the new
   * artist as both artist and album artist, keeps its original names, and
   * its new track and album names are its original ones.
   */
  lemma ArtistRenameSubmits(request: ScrobbleEdit, newArtist: string, discovered: Result<seq<ExactScrobbleEdit>, LastFmError>,
                            submit: ExactScrobbleEdit -> nat -> Result<bool, LastFmError>)
    requires request.artistName == newArtist && request.albumArtistName == Some(newArtist)
    requires request.trackName.None? || request.trackName == request.trackNameOriginal
    requires request.albumName.None? || request.albumName == request.albumNameOriginal
    requires discovered.Ok? ==> forall e :: e in discovered.value ==> Matches(e, request)
    ensures var r := EditOutcome(request, discovered, submit);
      r.Ok? ==> forall res :: res in r.value.individualResults ==>
        var x := res.exactScrobbleEdit;
        x.artistName == newArtist && x.albumArtistName == newArtist
        && x.trackName == x.trackNameOriginal && x.albumName == x.albumNameOriginal
  {
    var r := EditOutcome(request, discovered, submit);
    if r.Ok? {
      EditOutcomeFacts(request, discovered, submit);
      forall res | res in r.value.individualResults
        ensures var x := res.exactScrobbleEdit;
          x.artistName == newArtist && x.albumArtistName == newArtist
          && x.trackName == x.trackNameOriginal && x.albumName == x.albumNameOriginal
      {
        var i :| 0 <= i < |r.value.individualResults| && r.value.individualResults[i] == res;
        assert discovered.value[i] in discovered.value;
      }
    }
  }

  /** A discovered variation that agrees with the request's pinned original names and keeps its own names. */
  predicate Matches(e: ExactScrobbleEdit, request: ScrobbleEdit) {
    (request.trackNameOriginal.Some? ==> e.trackNameOriginal == request.trackNameOriginal.value)
    && (request.albumNameOriginal.Some? ==> e.albumNameOriginal == request.albumNameOriginal.value)
    && e.trackName == e.trackNameOriginal && e.albumName == e.albumNameOriginal
  }
}
