/**
 * `discover_scrobbles`, which picks a discovery strategy from what the
 * request names, and `discover_scrobble_edit_variations`, which collects
 * everything the chosen strategy yields.
 */
module Discovery {
  import opened Wrappers
  import opened LastFmTypes
  import opened DiscoveryCommon
  import ExactMatch
  import TrackVariations
  import AlbumTracks
  import ArtistTracks

  /** The four strategies, with the names they look up. */
  datatype Strategy =
    | ExactMatchStrategy(track: string, album: string)
    | TrackVariationsStrategy(track: string)
    | AlbumTracksStrategy(album: string)
    | ArtistTracksStrategy

  /**
   * `discover_scrobbles`: track and album named gives an exact match, only
   * the track its variations, only the album its tracks, neither the
   * artist's tracks.
   */
  function ChooseStrategy(request: ScrobbleEdit): (s: Strategy)
    ensures s.ExactMatchStrategy? <==> request.trackNameOriginal.Some? && request.albumNameOriginal.Some?
    ensures s.TrackVariationsStrategy? <==> request.trackNameOriginal.Some? && request.albumNameOriginal.None?
    ensures s.AlbumTracksStrategy? <==> request.trackNameOriginal.None? && request.albumNameOriginal.Some?
    ensures s.ArtistTracksStrategy? <==> request.trackNameOriginal.None? && request.albumNameOriginal.None?
    ensures (s.ExactMatchStrategy? || s.TrackVariationsStrategy?) ==> s.track == request.trackNameOriginal.value
    ensures (s.ExactMatchStrategy? || s.AlbumTracksStrategy?) ==> s.album == request.albumNameOriginal.value
  {
    match (request.trackNameOriginal, request.albumNameOriginal)
    case (Some(track), Some(album)) => ExactMatchStrategy(track, album)
    case (Some(track), None) => TrackVariationsStrategy(track)
    case (None, Some(album)) => AlbumTracksStrategy(album)
    case (None, None) => ArtistTracksStrategy
  }

  /**
   * What the strategies read from the user's library, for the request's
   * artist: a track's variations by track name, an album's track page by
   * album name, and the pages of the artist's album listing.
   */
  datatype Library = Library(
    variations: string -> Result<seq<ExactScrobbleEdit>, LastFmError>,
    albumTracks: string -> Result<Page<Track>, LastFmError>,
    artistAlbums: seq<Result<Page<Album>, LastFmError>>)

  /**
   * `discover_scrobble_edit_variations`: `collect_all` over the chosen
   * strategy. Every edit found shows the request; the exact match gives one
   * edit on the named album, the track strategy the candidates of the
   * track's variations, the album strategy those of the album's tracks.
   */
  method DiscoverScrobbleEditVariations(request: ScrobbleEdit, library: Library)
    returns (r: Result<seq<ExactScrobbleEdit>, LastFmError>)
    ensures r.Ok? ==> forall e :: e in r.value ==> Shaped(e, request)
    ensures ChooseStrategy(request).ExactMatchStrategy? && r.Ok? ==>
      |r.value| == 1 && r.value[0].albumNameOriginal == request.albumNameOriginal.value
    ensures ChooseStrategy(request).ExactMatchStrategy? ==>
      var track := request.trackNameOriginal.value;
      var found := ExactMatch.Lookup(request, track, request.albumNameOriginal.value, library.variations(track));
      r == if found.Ok? then Ok([found.value]) else Err(found.error)
    ensures ChooseStrategy(request).TrackVariationsStrategy? ==>
      var load := library.variations(request.trackNameOriginal.value);
      r == if load.Ok? then Ok(Candidates(load.value, request)) else Err(load.error)
    ensures ChooseStrategy(request).AlbumTracksStrategy? ==>
      var load := library.albumTracks(request.albumNameOriginal.value);
      r == if load.Ok? then Ok(EditsOfTracks(library.variations, request, load.value.items)) else Err(load.error)
    ensures ChooseStrategy(request).ArtistTracksStrategy? ==>
      r == ArtistTracks.ArtistEdits(request, library.variations, library.artistAlbums, library.albumTracks)
  {
    match ChooseStrategy(request)
    case ExactMatchStrategy(track, album) =>
      var discovery := new ExactMatch.ExactMatchDiscovery(request, track, album, library.variations(track));
      r := discovery.CollectAll();
      ExactMatch.LookupFound(request, track, album, library.variations(track));
    case TrackVariationsStrategy(track) =>
      r := TrackVariations.DiscoverAll(request, track, library.variations(track));
      if r.Ok? {
        forall e | e in r.value ensures Shaped(e, request) {
          CandidatesShaped(library.variations(track).value, request, e);
        }
      }
    case AlbumTracksStrategy(album) =>
      r := AlbumTracks.DiscoverAll(request, album, library.variations, library.albumTracks(album));
      if r.Ok? {
        forall e | e in r.value ensures Shaped(e, request) {
          EditsOfTracksShaped(library.variations, request, library.albumTracks(album).value.items, e);
        }
      }
    case ArtistTracksStrategy =>
      r := ArtistTracks.DiscoverAll(request, library.variations, library.artistAlbums, library.albumTracks);
  }
}
