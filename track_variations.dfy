/**
 * Track-variations discovery (a request naming the track but not the album):
 * every variation of the track, loaded once, with the requested changes
 * applied and filtered by album artist, yielded one by one.
 */
module TrackVariations {
  import opened Wrappers
  import opened LastFmTypes
  import opened ScrobbleEdits
  import opened DiscoveryCommon
  import Iterators

  /**
   * `TrackVariationsDiscovery`. `load` is the outcome of loading the track's
   * variations for the request's artist.
   */
  class TrackVariationsDiscovery {
    const request: ScrobbleEdit
    const trackName: string
    const load: Result<seq<ExactScrobbleEdit>, LastFmError>
    var scrobblesLoaded: bool
    var currentResults: seq<ExactScrobbleEdit>
    var currentIndex: nat
    /** How often the load was attempted. */
    ghost var loadAttempts: nat

    /**
     * The load is attempted exactly when `scrobblesLoaded` is set, so at most
     * once; buffered results are the load's candidates.
     */
    ghost predicate Valid()
      reads this
    {
      currentIndex <= |currentResults|
      && loadAttempts == (if scrobblesLoaded then 1 else 0)
      && (!scrobblesLoaded ==> currentResults == [])
      && (currentResults != [] ==> load.Ok? && currentResults == Candidates(load.value, request))
    }

    /** The buffered results not yet yielded. */
    function Pending(): seq<ExactScrobbleEdit>
      reads this
    {
      if currentIndex <= |currentResults| then currentResults[currentIndex..] else []
    }

    /** Everything later calls will yield, in order. */
    function Stream(): seq<ExactScrobbleEdit>
      reads this
    {
      Pending() + (if !scrobblesLoaded && load.Ok? then Candidates(load.value, request) else [])
    }

    constructor (request: ScrobbleEdit, trackName: string, load: Result<seq<ExactScrobbleEdit>, LastFmError>)
      ensures Valid() && !scrobblesLoaded && currentResults == [] && currentIndex == 0
      ensures this.request == request && this.trackName == trackName && this.load == load
      ensures load.Ok? ==> Stream() == Candidates(load.value, request)
    {
      this.request := request;
      this.trackName := trackName;
      this.load := load;
      scrobblesLoaded := false;
      currentResults := [];
      currentIndex := 0;
      loadAttempts := 0;
    }

    /**
     * `next`: a buffered result first, in stored order; otherwise the first
     * call loads the variations, buffers the candidates and yields the first
     * one. A failed load is returned once; after it, and once the candidates
     * are used up, every call returns `None`.
     */
    method Next() returns (r: Result<Option<ExactScrobbleEdit>, LastFmError>)
      requires Valid()
      modifies this
      ensures Valid()
      ensures old(currentIndex < |currentResults|) ==>
        r == Ok(Some(old(currentResults[currentIndex]))) && scrobblesLoaded == old(scrobblesLoaded)
      ensures r.Ok? && r.value.Some? ==> old(Stream()) == [r.value.value] + Stream()
      ensures r.Ok? && r.value.None? ==> old(Stream()) == [] && Stream() == [] && scrobblesLoaded
      ensures r.Err? ==> !old(scrobblesLoaded) && load == Err(r.error) && scrobblesLoaded && Stream() == []
      ensures load.Err? && !old(scrobblesLoaded) ==> r.Err?
    {
      if currentIndex < |currentResults| {
        var result := currentResults[currentIndex];
        assert currentResults[currentIndex..] == [result] + currentResults[currentIndex + 1..];
        currentIndex := currentIndex + 1;
        return Ok(Some(result));
      }
      if !scrobblesLoaded {
        loadAttempts := loadAttempts + 1;
        if load.Err? {
          scrobblesLoaded := true;
          return Err(load.error);
        }
        var modified := OverlayEach(load.value, request);
        var filtered := FilterByOriginalAlbumArtist(modified, request);
        if filtered != [] {
          currentResults := filtered;
          currentIndex := 1;
          scrobblesLoaded := true;
          assert filtered == [filtered[0]] + filtered[1..];
          return Ok(Some(currentResults[0]));
        }
        scrobblesLoaded := true;
      }
      r := Ok(None);
    }

    /** `collect_all`: everything the iterator still yields, or the load's error. */
    method CollectAll() returns (r: Result<seq<ExactScrobbleEdit>, LastFmError>)
      requires Valid()
      modifies this
      ensures Valid()
      ensures load.Ok? || old(scrobblesLoaded) ==> r == Ok(old(Stream()))
      ensures load.Err? && !old(scrobblesLoaded) ==> r == Err(load.error)
    {
      var items: seq<ExactScrobbleEdit> := [];
      ghost var all := Stream();
      assert all == [] + Stream();
      while true
        invariant Valid()
        invariant all == items + Stream()
        invariant old(scrobblesLoaded) ==> scrobblesLoaded
        invariant load.Err? && !old(scrobblesLoaded) ==> !scrobblesLoaded
        decreases |Stream()|, !scrobblesLoaded
      {
        var next := Next();
        if next.Err? {
          return Err(next.error);
        }
        if next.value.None? {
          assert items + [] == items;
          return Ok(items);
        }
        Iterators.AppendOne(items, next.value.value, Stream());
        items := items + [next.value.value];
      }
    }
  }

  /** A fresh discovery collects exactly the candidates of the loaded variations, or the load's error. */
  method DiscoverAll(request: ScrobbleEdit, trackName: string, load: Result<seq<ExactScrobbleEdit>, LastFmError>)
    returns (r: Result<seq<ExactScrobbleEdit>, LastFmError>)
    ensures r == if load.Ok? then Ok(Candidates(load.value, request)) else Err(load.error)
  {
    var discovery := new TrackVariationsDiscovery(request, trackName, load);
    r := discovery.CollectAll();
  }
}
