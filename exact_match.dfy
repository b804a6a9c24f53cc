/**
 * Exact-match discovery (a request naming both the track and the album): the
 * one scrobble variation of the track that is on the requested album, with
 * the requested changes applied.
 */
module ExactMatch {
  import opened Wrappers
  import opened LastFmTypes
  import opened ScrobbleEdits
  import opened DiscoveryCommon

  /** The first variation on album `albumName`. */
  function FindOnAlbum(variations: seq<ExactScrobbleEdit>, albumName: string): (r: Option<ExactScrobbleEdit>)
    ensures r.Some? ==> r.value in variations && r.value.albumNameOriginal == albumName
    ensures r.None? <==> forall v :: v in variations ==> v.albumNameOriginal != albumName
  {
    if variations == [] then None
    else if variations[0].albumNameOriginal == albumName then Some(variations[0])
    else FindOnAlbum(variations[1..], albumName)
  }

  /** The text of the error for a track that is not on the album. */
  function NotFoundMessage(request: ScrobbleEdit, trackName: string, albumName: string): string {
    var filter := match request.albumArtistNameOriginal
      case Some(a) => " with album artist '" + a + "'"
      case None => "";
    "Track '" + trackName + "' not found on album '" + albumName + "' by '"
      + request.artistNameOriginal + "'" + filter + " in recent scrobbles"
  }

  /**
   * The outcome of the lookup: a failed load is passed on; otherwise the
   * variations are filtered by album artist, the first one on the album is
   * overlaid with the request, and a missing one is a parse error.
   */
  function Lookup(request: ScrobbleEdit, trackName: string, albumName: string,
                  load: Result<seq<ExactScrobbleEdit>, LastFmError>): Result<ExactScrobbleEdit, LastFmError>
  {
    match load
    case Err(e) => Err(e)
    case Ok(all) =>
      match FindOnAlbum(FilterByOriginalAlbumArtist(all, request), albumName)
      case Some(exact) => Ok(Overlay(exact, request))
      case None => Err(Parse(NotFoundMessage(request, trackName, albumName)))
  }

  /**
   * A found edit is a loaded variation on the requested album that passed the
   * album-artist filter, with the request applied; it is missing exactly when
   * no such variation exists.
   */
  lemma LookupFound(request: ScrobbleEdit, trackName: string, albumName: string,
                    load: Result<seq<ExactScrobbleEdit>, LastFmError>)
    ensures load.Err? ==> Lookup(request, trackName, albumName, load) == Err(load.error)
    ensures var r := Lookup(request, trackName, albumName, load);
      r.Ok? ==> (load.Ok? && r.value.albumNameOriginal == albumName && Shaped(r.value, request)
                 && exists v :: v in load.value && MatchesAlbumArtist(v, request) && v.albumNameOriginal == albumName
                                && r.value == Overlay(v, request))
    ensures load.Ok? ==>
      (Lookup(request, trackName, albumName, load) == Err(Parse(NotFoundMessage(request, trackName, albumName)))
       <==> forall v :: v in load.value && MatchesAlbumArtist(v, request) ==> v.albumNameOriginal != albumName)
  {
    if load.Ok? {
      var kept := FilterByOriginalAlbumArtist(load.value, request);
      var found := FindOnAlbum(kept, albumName);
      if found.Some? {
        assert found.value in load.value && MatchesAlbumArtist(found.value, request);
      }
    }
  }

  /**
   * `ExactMatchDiscovery`. `load` is the outcome of loading the track's
   * variations for the request's artist.
   */
  class ExactMatchDiscovery {
    const request: ScrobbleEdit
    const trackName: string
    const albumName: string
    const load: Result<seq<ExactScrobbleEdit>, LastFmError>
    var result: Option<ExactScrobbleEdit>
    var completed: bool

    /** Between calls nothing is held: the found edit is taken in the call that finds it. */
    predicate Valid()
      reads this
    {
      result.None?
    }

    constructor (request: ScrobbleEdit, trackName: string, albumName: string,
                 load: Result<seq<ExactScrobbleEdit>, LastFmError>)
      ensures Valid() && !completed
      ensures this.request == request && this.trackName == trackName && this.albumName == albumName && this.load == load
    {
      this.request := request;
      this.trackName := trackName;
      this.albumName := albumName;
      this.load := load;
      result := None;
      completed := false;
    }

    /**
     * `next`: the first call does the lookup and returns its edit or its
     * error; every call after that returns `None`.
     */
    method Next() returns (r: Result<Option<ExactScrobbleEdit>, LastFmError>)
      requires Valid()
      modifies this
      ensures Valid() && completed
      ensures old(completed) ==> r == Ok(None)
      ensures !old(completed) ==>
        r == match Lookup(request, trackName, albumName, load)
             case Ok(e) => Ok(Some(e))
             case Err(e) => Err(e)
    {
      if completed {
        return Ok(None);
      }
      if result.None? {
        match load {
          case Ok(all) =>
            var filtered := FilterByOriginalAlbumArtist(all, request);
            var exact := FindOnAlbum(filtered, albumName);
            if exact.Some? {
              result := Some(Overlay(exact.value, request));
            } else {
              completed := true;
              return Err(Parse(NotFoundMessage(request, trackName, albumName)));
            }
          case Err(e) =>
            completed := true;
            return Err(e);
        }
      }
      completed := true;
      r := Ok(result);
      result := None;
    }
  
    /** `collect_all`: the found edit alone, or the lookup's error; nothing once completed. */
    method CollectAll() returns (r: Result<seq<ExactScrobbleEdit>, LastFmError>)
      requires Valid()
      modifies this
      ensures Valid() && completed
      ensures old(completed) ==> r == Ok([])
      ensures !old(completed) ==>
        r == match Lookup(request, trackName, albumName, load)
             case Ok(e) => Ok([e])
             case Err(e) => Err(e)
    {
      var items: seq<ExactScrobbleEdit> := [];
      while true
        invariant Valid()
        invariant old(completed) ==> completed && items == []
        invariant !old(completed) && !completed ==> items == []
        invariant !old(completed) && completed ==>
          Lookup(request, trackName, albumName, load).Ok? && items == [Lookup(request, trackName, albumName, load).value]
        decreases if completed then 0 else 1
      {
        var next := Next();
        if next.Err? {
          return Err(next.error);
        }
        if next.value.None? {
          return Ok(items);
        }
        items := items + [next.value.value];
      }
    }
  }
}
