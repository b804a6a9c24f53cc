/**
 * The older edit request of `src/edit.rs`: every name is a plain string
 * (no "look it up" case), built by a ten-field constructor, a constructor
 * from track information and consuming builders.
 */
module LegacyEdits {

  datatype LegacyEdit = LegacyEdit(
    trackNameOriginal: string,
    albumNameOriginal: string,
    artistNameOriginal: string,
    albumArtistNameOriginal: string,
    trackName: string,
    albumName: string,
    artistName: string,
    albumArtistName: string,
    timestamp: nat,
    editAll: bool)

  /** Every new value equals its original: the edit changes no name. */
  predicate ChangesNothing(e: LegacyEdit) {
    e.trackName == e.trackNameOriginal && e.albumName == e.albumNameOriginal
    && e.artistName == e.artistNameOriginal && e.albumArtistName == e.albumArtistNameOriginal
  }

  /** `ScrobbleEdit::new`: the ten arguments, in order, as the ten fields. */
  function New(trackNameOriginal: string, albumNameOriginal: string, artistNameOriginal: string,
               albumArtistNameOriginal: string, trackName: string, albumName: string, artistName: string,
               albumArtistName: string, timestamp: nat, editAll: bool): (r: LegacyEdit)
    ensures r.trackNameOriginal == trackNameOriginal && r.albumNameOriginal == albumNameOriginal
    ensures r.artistNameOriginal == artistNameOriginal && r.albumArtistNameOriginal == albumArtistNameOriginal
    ensures r.trackName == trackName && r.albumName == albumName
    ensures r.artistName == artistName && r.albumArtistName == albumArtistName
    ensures r.timestamp == timestamp && r.editAll == editAll
  {
    LegacyEdit(trackNameOriginal, albumNameOriginal, artistNameOriginal, albumArtistNameOriginal,
               trackName, albumName, artistName, albumArtistName, timestamp, editAll)
  }

  /** `from_track_info`: an edit that changes nothing, with the artist as album artist, for one scrobble. */
  function FromTrackInfo(track: string, album: string, artist: string, timestamp: nat): (r: LegacyEdit)
    ensures ChangesNothing(r) && !r.editAll && r.timestamp == timestamp
    ensures r.trackNameOriginal == track && r.albumNameOriginal == album
    ensures r.artistNameOriginal == artist && r.albumArtistNameOriginal == artist
  {
    New(track, album, artist, artist, track, album, artist, artist, timestamp, false)
  }

  /** `with_track_name`: the new track name, nothing else. */
  function WithTrackName(e: LegacyEdit, name: string): (r: LegacyEdit)
    ensures r.trackName == name && r.(trackName := e.trackName) == e
  {
    e.(trackName := name)
  }

  /** `with_album_name`: the new album name, nothing else. */
  function WithAlbumName(e: LegacyEdit, name: string): (r: LegacyEdit)
    ensures r.albumName == name && r.(albumName := e.albumName) == e
  {
    e.(albumName := name)
  }

  /** `with_artist_name`: the new artist and, with it, the new album artist; nothing else. */
  function WithArtistName(e: LegacyEdit, name: string): (r: LegacyEdit)
    ensures r.artistName == name && r.albumArtistName == name
    ensures r.(artistName := e.artistName, albumArtistName := e.albumArtistName) == e
  {
    e.(artistName := name, albumArtistName := name)
  }

  /** `with_edit_all`: the flag, nothing else. */
  function WithEditAll(e: LegacyEdit, editAll: bool): (r: LegacyEdit)
    ensures r.editAll == editAll && r.(editAll := e.editAll) == e
  {
    e.(editAll := editAll)
  }

  /**
   * No builder touches an original field or the timestamp, so a chain of
   * them on `from_track_info` still names the scrobble it was built for;
   * a later call of the same builder wins.
   */
  lemma BuildersKeepOriginals(track: string, album: string, artist: string, timestamp: nat,
                              newTrack: string, newAlbum: string, newArtist: string, editAll: bool)
    ensures var e := WithEditAll(WithArtistName(WithAlbumName(WithTrackName(
                       FromTrackInfo(track, album, artist, timestamp), newTrack), newAlbum), newArtist), editAll);
      e == LegacyEdit(track, album, artist, artist, newTrack, newAlbum, newArtist, newArtist, timestamp, editAll)
    ensures forall e: LegacyEdit, a, b :: WithArtistName(WithArtistName(e, a), b) == WithArtistName(e, b)
    ensures forall e: LegacyEdit, a, b :: WithTrackName(WithAlbumName(e, a), b) == WithAlbumName(WithTrackName(e, b), a)
  {
  }

  /** Setting each new name back to its original gives an edit that changes nothing. */
  lemma RestoringNamesChangesNothing(e: LegacyEdit)
    requires e.albumArtistNameOriginal == e.artistNameOriginal
    ensures ChangesNothing(WithArtistName(WithAlbumName(WithTrackName(e, e.trackNameOriginal),
                                                         e.albumNameOriginal), e.artistNameOriginal))
  {
  }
}
