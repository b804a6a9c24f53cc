/**
 * Album-tracks discovery (a request naming the album but not the track): the
 * album's tracks one by one, and for each the candidates of its variations.
 * A track whose variations fail to load, or leave no candidate, is skipped.
 */
module AlbumTracks {
  import opened Wrappers
  import opened LastFmTypes
  import opened ScrobbleEdits
  import opened DiscoveryCommon
  import opened Iterators

  /**
   * `AlbumTracksDiscovery`. `variations` gives the outcome of loading a
   * track's variations for the request's artist, by track name.
   */
  class AlbumTracksDiscovery {
    const request: ScrobbleEdit
    const albumName: string
    const variations: string -> Result<seq<ExactScrobbleEdit>, LastFmError>
    const tracksIterator: AlbumTracksIterator
    var currentTrackResults: seq<ExactScrobbleEdit>
    var currentTrackIndex: nat

    ghost predicate Valid()
      reads this, tracksIterator
    {
      tracksIterator.Valid()
      && tracksIterator.albumName == albumName && tracksIterator.artistName == request.artistNameOriginal
      && currentTrackIndex <= |currentTrackResults|
      && (tracksIterator.load.Err? ==> currentTrackResults == [])
    }

    /** The current track's results not yet yielded. */
    function Pending(): seq<ExactScrobbleEdit>
      reads this
    {
      if currentTrackIndex <= |currentTrackResults| then currentTrackResults[currentTrackIndex..] else []
    }

    /** Everything later calls will yield, in order. */
    function Stream(): seq<ExactScrobbleEdit>
      reads this, tracksIterator
    {
      Pending() + EditsOfTracks(variations, request, tracksIterator.Remaining())
    }

    constructor (request: ScrobbleEdit, albumName: string,
                 variations: string -> Result<seq<ExactScrobbleEdit>, LastFmError>,
                 albumLoad: Result<Page<Track>, LastFmError>)
      ensures Valid() && fresh(tracksIterator) && tracksIterator.load == albumLoad
      ensures this.request == request && this.albumName == albumName && this.variations == variations
      ensures albumLoad.Ok? ==> Stream() == EditsOfTracks(variations, request, albumLoad.value.items)
    {
      this.request := request;
      this.albumName := albumName;
      this.variations := variations;
      tracksIterator := new AlbumTracksIterator(albumName, request.artistNameOriginal, albumLoad);
      currentTrackResults := [];
      currentTrackIndex := 0;
    }

    /**
     * `next`: the current track's results first, in stored order; then the
     * album's next tracks, until one has candidates, whose first is yielded
     * and the rest buffered. An album listing error is passed on.
     */
    method Next() returns (r: Result<Option<ExactScrobbleEdit>, LastFmError>)
      requires Valid()
      modifies this, tracksIterator
      ensures Valid()
      ensures old(currentTrackIndex < |currentTrackResults|) ==>
        r == Ok(Some(old(currentTrackResults[currentTrackIndex]))) && unchanged(tracksIterator)
      ensures r.Ok? && r.value.Some? ==> old(Stream()) == [r.value.value] + Stream()
      ensures r.Ok? && r.value.None? ==> old(Stream()) == [] && Stream() == []
      ensures r.Err? ==> tracksIterator.load.Err? && r.error == tracksIterator.load.error && old(Stream()) == []
      ensures tracksIterator.load.Err? ==> r.Err?
    {
      if currentTrackIndex < |currentTrackResults| {
        assert tracksIterator.load.Ok?;
        var result := TakeCurrent();
        return Ok(Some(result));
      }
      r := NextFromTracks();
    }

    /** The next of the current track's stored results. */
    method TakeCurrent() returns (result: ExactScrobbleEdit)
      requires Valid() && currentTrackIndex < |currentTrackResults|
      modifies this
      ensures Valid() && currentTrackResults == old(currentTrackResults)
      ensures result == old(currentTrackResults[currentTrackIndex])
      ensures old(Pending()) == [result] + Pending()
      ensures unchanged(tracksIterator) && old(Stream()) == [result] + Stream()
    {
      ghost var later := EditsOfTracks(variations, request, tracksIterator.Remaining());
      result := currentTrackResults[currentTrackIndex];
      assert currentTrackResults[currentTrackIndex..] == [result] + currentTrackResults[currentTrackIndex + 1..];
      currentTrackIndex := currentTrackIndex + 1;
      assert unchanged(tracksIterator);
      assert Stream() == Pending() + later;
      AppendAssoc([result], Pending(), later);
    }

    /** The loop of `next` over the album's tracks, once the current track's results are used up. */
    method NextFromTracks() returns (r: Result<Option<ExactScrobbleEdit>, LastFmError>)
      requires Valid() && currentTrackIndex == |currentTrackResults|
      modifies this, tracksIterator
      ensures Valid()
      ensures r.Ok? && r.value.Some? ==> old(Stream()) == [r.value.value] + Stream()
      ensures r.Ok? && r.value.None? ==> old(Stream()) == [] && Stream() == []
      ensures r.Err? ==> tracksIterator.load.Err? && r.error == tracksIterator.load.error && old(Stream()) == []
      ensures tracksIterator.load.Err? ==> r.Err?
    {
      assert Pending() == [];
      assert Stream() == [] + EditsOfTracks(variations, request, tracksIterator.Remaining());
      while true
        invariant Valid() && currentTrackIndex == |currentTrackResults|
        invariant old(Stream()) == EditsOfTracks(variations, request, tracksIterator.Remaining())
        decreases tracksIterator.Left(Unweighted)
      {
        var next := tracksIterator.Next(Unweighted);
        if next.Err? {
          return Err(next.error);
        }
        if next.value.None? {
          assert Stream() == [] + [];
          return Ok(None);
        }
        var track := next.value.value;
        ghost var later := EditsOfTracks(variations, request, tracksIterator.Remaining());
        EditsOfTracksFront(variations, request, track, tracksIterator.Remaining());
        var first := TakeCandidates(track);
        if first.Some? {
          assert Stream() == Pending() + later;
          AppendAssoc([first.value], Pending(), later);
          return Ok(first);
        }
        assert [] + later == later;
      }
    }

    /**
     * The body of the loop of `next` for one track: its variations are
     * loaded, overlaid and filtered; when candidates remain they become the
     * current results and the first is taken. A failed load is skipped.
     */
    method TakeCandidates(track: Track) returns (first: Option<ExactScrobbleEdit>)
      requires Valid() && tracksIterator.load.Ok?
      modifies this
      ensures Valid()
      ensures first.None? ==> CandidatesFor(variations, request, track) == [] && unchanged(this)
      ensures first.Some? ==> CandidatesFor(variations, request, track) == [first.value] + Pending()
    {
      var filtered := LoadCandidates(variations, request, track);
      if filtered != [] {
        currentTrackResults := filtered;
        currentTrackIndex := 1;
        assert filtered == [filtered[0]] + filtered[1..];
        return Some(filtered[0]);
      }
      first := None;
    }

    /** `collect_all`: everything the discovery still yields, or the album listing's error. */
    method CollectAll() returns (r: Result<seq<ExactScrobbleEdit>, LastFmError>)
      requires Valid()
      modifies this, tracksIterator
      ensures Valid()
      ensures tracksIterator.load.Ok? ==> r == Ok(old(Stream()))
      ensures tracksIterator.load.Err? ==> r == Err(tracksIterator.load.error)
    {
      var items: seq<ExactScrobbleEdit> := [];
      ghost var all := Stream();
      assert all == [] + Stream();
      while true
        invariant Valid()
        invariant all == items + Stream()
        decreases |Stream()|
      {
        var next := Next();
        if next.Err? {
          return Err(next.error);
        }
        if next.value.None? {
          assert items + [] == items;
          return Ok(items);
        }
        AppendOne(items, next.value.value, Stream());
        items := items + [next.value.value];
      }
    }
  }

  lemma AppendAssoc<T>(a: seq<T>, b: seq<T>, c: seq<T>)
    ensures a + (b + c) == (a + b) + c
  {
  }

  /**
   * A fresh discovery collects the candidates of the album's tracks, track by
   * track, or the album listing's error.
   */
  method DiscoverAll(request: ScrobbleEdit, albumName: string,
                     variations: string -> Result<seq<ExactScrobbleEdit>, LastFmError>,
                     albumLoad: Result<Page<Track>, LastFmError>)
    returns (r: Result<seq<ExactScrobbleEdit>, LastFmError>)
    ensures r == if albumLoad.Ok? then Ok(EditsOfTracks(variations, request, albumLoad.value.items))
                 else Err(albumLoad.error)
  {
    var discovery := new AlbumTracksDiscovery(request, albumName, variations, albumLoad);
    r := discovery.CollectAll();
  }
}
