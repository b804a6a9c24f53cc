/**
 * Artist-tracks discovery (a request naming neither track nor album): the
 * artist's tracks, album by album, and for each the candidates of its
 * variations. A track whose variations fail to load, or leave no candidate,
 * is skipped.
 */
module ArtistTracks {
  import opened Wrappers
  import opened LastFmTypes
  import opened ScrobbleEdits
  import opened DiscoveryCommon
  import opened Iterators
  import Consumption

  /** The edits of a track listing's outcome: the candidates of its tracks, track by track, or its error. */
  function EditsOfListing(variations: string -> Result<seq<ExactScrobbleEdit>, LastFmError>, request: ScrobbleEdit,
                          listing: Result<seq<Track>, LastFmError>): Result<seq<ExactScrobbleEdit>, LastFmError>
  {
    if listing.Ok? then Ok(EditsOfTracks(variations, request, listing.value)) else Err(listing.error)
  }

  /**
   * What the artist strategy finds: the candidates of every track of the
   * artist, album by album and track by track in listing order, or the first
   * error of the album listing or of an album's track page.
   */
  function ArtistEdits(request: ScrobbleEdit, variations: string -> Result<seq<ExactScrobbleEdit>, LastFmError>,
                       albumSource: seq<Result<Page<Album>, LastFmError>>,
                       albumTracks: string -> Result<Page<Track>, LastFmError>): Result<seq<ExactScrobbleEdit>, LastFmError>
  {
    EditsOfListing(variations, request, ArtistTracksListing(albumSource, albumTracks))
  }

  /** A track in front of a listing puts its candidates in front of the edits. */
  lemma EditsOfListingFront(variations: string -> Result<seq<ExactScrobbleEdit>, LastFmError>, request: ScrobbleEdit,
                            t: Track, listing: Result<seq<Track>, LastFmError>)
    ensures EditsOfListing(variations, request, Consumption.Prepend([t], listing))
         == Consumption.Prepend(CandidatesFor(variations, request, t), EditsOfListing(variations, request, listing))
  {
    if listing.Ok? {
      EditsOfTracksFront(variations, request, t, listing.value);
    }
  }

  /**
   * `ArtistTracksDiscovery`. `variations` gives the outcome of loading a
   * track's variations for the request's artist, by track name.
   */
  class ArtistTracksDiscovery {
    const request: ScrobbleEdit
    const variations: string -> Result<seq<ExactScrobbleEdit>, LastFmError>
    const tracksIterator: ArtistTracksIterator
    var currentTrackResults: seq<ExactScrobbleEdit>
    var currentTrackIndex: nat
    /** The track the current results belong to. */
    ghost var currentTrack: Option<Track>

    ghost predicate Valid()
      reads this, tracksIterator, tracksIterator.albumIterator, tracksIterator.currentAlbumTracks
    {
      tracksIterator.Valid() && tracksIterator.artist == request.artistNameOriginal
      && currentTrackIndex <= |currentTrackResults|
      && (currentTrackResults != [] ==>
            currentTrack.Some? && currentTrackResults == CandidatesFor(variations, request, currentTrack.value))
    }

    /** The current track's results not yet yielded. */
    function Pending(): seq<ExactScrobbleEdit>
      reads this
    {
      if currentTrackIndex <= |currentTrackResults| then currentTrackResults[currentTrackIndex..] else []
    }

    /**
     * What later calls of `next` return: the current track's remaining
     * results, then the candidates of the artist's remaining tracks; or the
     * error a call will return first.
     */
    ghost function Stream(): Result<seq<ExactScrobbleEdit>, LastFmError>
      reads this, tracksIterator, tracksIterator.albumIterator, tracksIterator.currentAlbumTracks
    {
      Consumption.Prepend(Pending(), Later())
    }

    /** The candidates of the artist's remaining tracks, or the error listing them stops at. */
    ghost function Later(): Result<seq<ExactScrobbleEdit>, LastFmError>
      reads tracksIterator, tracksIterator.albumIterator, tracksIterator.currentAlbumTracks
    {
      EditsOfListing(variations, request, tracksIterator.Stream())
    }

    /** What the artist's tracks yield from `track` on, when `track` is the one just listed. */
    ghost function LaterFrom(track: Track): Result<seq<ExactScrobbleEdit>, LastFmError>
      reads tracksIterator, tracksIterator.albumIterator, tracksIterator.currentAlbumTracks
    {
      EditsOfListing(variations, request, Consumption.Prepend([track], tracksIterator.Stream()))
    }

    /** A track weighs as many edits as it yields. */
    ghost function Weigh(): Track -> nat {
      t => |CandidatesFor(variations, request, t)|
    }

    /** The edits still to come: buffered ones plus the weight of the artist's remaining tracks. */
    ghost function Bound(): nat
      reads this, tracksIterator, tracksIterator.albumIterator, tracksIterator.currentAlbumTracks
    {
      (if currentTrackIndex <= |currentTrackResults| then |currentTrackResults| - currentTrackIndex else 0)
      + Remaining()
    }

    /** The weight of the artist's remaining tracks. */
    ghost function Remaining(): nat
      reads tracksIterator, tracksIterator.albumIterator, tracksIterator.currentAlbumTracks
    {
      tracksIterator.Bound(Weigh())
    }

    constructor (request: ScrobbleEdit, variations: string -> Result<seq<ExactScrobbleEdit>, LastFmError>,
                 albumSource: seq<Result<Page<Album>, LastFmError>>,
                 albumTracks: string -> Result<Page<Track>, LastFmError>)
      ensures Valid() && fresh(tracksIterator) && currentTrackResults == []
      ensures this.request == request && this.variations == variations
      ensures tracksIterator.albumSource == albumSource && tracksIterator.albumTracks == albumTracks
      ensures tracksIterator.albumIterator == null && tracksIterator.currentAlbumTracks == null
      ensures Stream() == ArtistEdits(request, variations, albumSource, albumTracks)
    {
      this.request := request;
      this.variations := variations;
      tracksIterator := new ArtistTracksIterator(request.artistNameOriginal, albumSource, albumTracks);
      currentTrackResults := [];
      currentTrackIndex := 0;
      currentTrack := None;
      Consumption.PrependEmpty(ArtistEdits(request, variations, albumSource, albumTracks));
    }

    /**
     * `next`: the current track's results first, in stored order; then the
     * artist's next tracks, until one has candidates, whose first is yielded
     * and the rest buffered. The end of the artist's tracks gives `None`.
     */
    method Next() returns (r: Result<Option<ExactScrobbleEdit>, LastFmError>)
      requires Valid()
      modifies this, tracksIterator, tracksIterator.albumIterator, tracksIterator.currentAlbumTracks
      ensures Valid()
      ensures tracksIterator.albumIterator == null || tracksIterator.albumIterator == old(tracksIterator.albumIterator)
              || fresh(tracksIterator.albumIterator)
      ensures tracksIterator.currentAlbumTracks == null || tracksIterator.currentAlbumTracks == old(tracksIterator.currentAlbumTracks)
              || fresh(tracksIterator.currentAlbumTracks)
      ensures old(currentTrackIndex < |currentTrackResults|) ==>
        r == Ok(Some(old(currentTrackResults[currentTrackIndex]))) && unchanged(tracksIterator)
      ensures r.Ok? && r.value.Some? ==>
        currentTrack.Some? && r.value.value in CandidatesFor(variations, request, currentTrack.value) && Bound() < old(Bound())
      ensures r == Ok(None) ==> tracksIterator.finished
      ensures r.Ok? && r.value.Some? ==> old(Stream()) == Consumption.Prepend([r.value.value], Stream())
      ensures r == Ok(None) ==> old(Stream()) == Ok([])
      ensures r.Err? ==> old(Stream()) == Err(r.error)
    {
      if currentTrackIndex < |currentTrackResults| {
        var result := PopResult();
        return Ok(Some(result));
      }
      r := NextFromTracks();
    }

    /** The branch of `next` that yields the current track's next stored result. */
    method PopResult() returns (result: ExactScrobbleEdit)
      requires Valid() && currentTrackIndex < |currentTrackResults|
      modifies this
      ensures Valid()
      ensures result == old(currentTrackResults[currentTrackIndex])
      ensures currentTrack == old(currentTrack) && currentTrackResults == old(currentTrackResults)
      ensures currentTrackIndex == old(currentTrackIndex) + 1
      ensures currentTrack.Some? && result in CandidatesFor(variations, request, currentTrack.value)
      ensures Bound() + 1 == old(Bound())
      ensures old(Stream()) == Consumption.Prepend([result], Stream())
    {
      result := currentTrackResults[currentTrackIndex];
      assert result in currentTrackResults;
      Consumption.PrependFrom(currentTrackResults, currentTrackIndex, Later());
      currentTrackIndex := currentTrackIndex + 1;
    }

    /** The loop of `next` over the artist's tracks, once the current track's results are used up. */
    method NextFromTracks() returns (r: Result<Option<ExactScrobbleEdit>, LastFmError>)
      requires Valid() && currentTrackIndex == |currentTrackResults|
      modifies this, tracksIterator, tracksIterator.albumIterator, tracksIterator.currentAlbumTracks
      ensures Valid()
      ensures tracksIterator.albumIterator == null || tracksIterator.albumIterator == old(tracksIterator.albumIterator)
              || fresh(tracksIterator.albumIterator)
      ensures tracksIterator.currentAlbumTracks == null || tracksIterator.currentAlbumTracks == old(tracksIterator.currentAlbumTracks)
              || fresh(tracksIterator.currentAlbumTracks)
      ensures r.Ok? && r.value.Some? ==>
        currentTrack.Some? && tracksIterator.JustYielded(currentTrack.value)
        && currentTrackIndex == 1 && r.value.value == currentTrackResults[0]
        && Bound() < old(Bound())
      ensures r == Ok(None) ==> tracksIterator.finished
      ensures r.Ok? && r.value.Some? ==> old(Stream()) == Consumption.Prepend([r.value.value], Stream())
      ensures r == Ok(None) ==> old(Stream()) == Ok([])
      ensures r.Err? ==> old(Stream()) == Err(r.error)
    {
      while true
        invariant Valid() && currentTrackIndex == |currentTrackResults|
        invariant Stream() == old(Stream())
        invariant tracksIterator.albumIterator == null || tracksIterator.albumIterator == old(tracksIterator.albumIterator)
                  || fresh(tracksIterator.albumIterator)
        invariant tracksIterator.currentAlbumTracks == null || tracksIterator.currentAlbumTracks == old(tracksIterator.currentAlbumTracks)
                  || fresh(tracksIterator.currentAlbumTracks)
        invariant Bound() <= old(Bound())
        decreases Bound()
      {
        var stop := Step();
        if stop.Some? {
          return stop.value;
        }
      }
    }

    /**
     * One round of the loop of `next`: the artist's next track, and its
     * candidates when there are any. `stop` is what `next` returns when the
     * round ends the call.
     */
    method Step() returns (stop: Option<Result<Option<ExactScrobbleEdit>, LastFmError>>)
      requires Valid() && currentTrackIndex == |currentTrackResults|
      modifies this, tracksIterator, tracksIterator.albumIterator, tracksIterator.currentAlbumTracks
      ensures Valid()
      ensures tracksIterator.albumIterator == null || tracksIterator.albumIterator == old(tracksIterator.albumIterator)
              || fresh(tracksIterator.albumIterator)
      ensures tracksIterator.currentAlbumTracks == null || tracksIterator.currentAlbumTracks == old(tracksIterator.currentAlbumTracks)
              || fresh(tracksIterator.currentAlbumTracks)
      ensures stop.None? ==> currentTrackIndex == |currentTrackResults| && Bound() < old(Bound())
      ensures stop.Some? && stop.value.Ok? && stop.value.value.Some? ==>
        currentTrack.Some? && tracksIterator.JustYielded(currentTrack.value)
        && currentTrackIndex == 1 && stop.value.value.value == currentTrackResults[0]
        && Bound() < old(Bound())
      ensures stop == Some(Ok(None)) ==> tracksIterator.finished
      ensures stop.None? ==> Stream() == old(Stream())
      ensures stop.Some? && stop.value.Err? ==> old(Stream()) == Err(stop.value.error)
      ensures stop == Some(Ok(None)) ==> old(Stream()) == Ok([])
      ensures stop.Some? && stop.value.Ok? && stop.value.value.Some? ==>
        old(Stream()) == Consumption.Prepend([stop.value.value.value], Stream())
    {
      var next := PullTrack();
      if next.Err? {
        return Some(Err(next.error));
      }
      if next.value.None? {
        return Some(Ok(None));
      }
      var track := next.value.value;
      var first := TakeCandidates(track);
      if first.Some? {
        return Some(Ok(first));
      }
      stop := None;
    }

    /** The artist's next track, for one round of the loop of `next`. */
    method PullTrack() returns (next: Result<Option<Track>, LastFmError>)
      requires Valid() && currentTrackIndex == |currentTrackResults|
      modifies tracksIterator, tracksIterator.albumIterator, tracksIterator.currentAlbumTracks
      ensures Valid()
      ensures tracksIterator.albumIterator == null || tracksIterator.albumIterator == old(tracksIterator.albumIterator)
              || fresh(tracksIterator.albumIterator)
      ensures tracksIterator.currentAlbumTracks == null || tracksIterator.currentAlbumTracks == old(tracksIterator.currentAlbumTracks)
              || fresh(tracksIterator.currentAlbumTracks)
      ensures next == Ok(None) ==> tracksIterator.finished
      ensures next.Err? ==> old(Stream()) == Err(next.error)
      ensures next == Ok(None) ==> old(Stream()) == Ok([])
      ensures next.Ok? && next.value.Some? ==>
        tracksIterator.JustYielded(next.value.value)
        && tracksIterator.Bound(Weigh()) + 1 + Weigh()(next.value.value) <= old(Bound())
        && old(Stream()) == LaterFrom(next.value.value)
    {
      assert Stream() == Later() by {
        assert Pending() == [];
        Consumption.PrependEmpty(Later());
      }
      next := tracksIterator.Next(Weigh());
    }

    /**
     * The body of the loop of `next` for one track: its candidates, when
     * there are any, become the current results and the first is taken.
     */
    method TakeCandidates(track: Track) returns (first: Option<ExactScrobbleEdit>)
      requires Valid() && currentTrackIndex == |currentTrackResults|
      modifies this
      ensures Valid()
      ensures first.None? ==> unchanged(this) && Weigh()(track) == 0
      ensures first.Some? ==>
        currentTrack == Some(track) && currentTrackIndex == 1 && |currentTrackResults| == Weigh()(track)
        && first.value == currentTrackResults[0]
      ensures Bound() + (if first.Some? then 1 else 0) == Weigh()(track) + old(Remaining())
      ensures tracksIterator.JustYielded(track) == old(tracksIterator.JustYielded(track))
      ensures unchanged(tracksIterator)
      ensures first.None? ==> CandidatesFor(variations, request, track) == []
      ensures first.Some? ==> CandidatesFor(variations, request, track) == [first.value] + Pending()
      ensures first.None? ==>
        Stream() == old(LaterFrom(track))
      ensures first.Some? ==>
        old(LaterFrom(track))
        == Consumption.Prepend([first.value], Stream())
    {
      var filtered := LoadCandidates(variations, request, track);
      if filtered != [] {
        Hold(track, filtered);
        return Some(filtered[0]);
      }
      EditsOfListingFront(variations, request, track, tracksIterator.Stream());
      assert Pending() == [];
      Consumption.PrependEmpty(Later());
      first := None;
    }

    /** Makes a track's candidates the current results, the first of them taken. */
    method Hold(track: Track, results: seq<ExactScrobbleEdit>)
      requires Valid() && currentTrackIndex == |currentTrackResults|
      requires results == CandidatesFor(variations, request, track) && results != []
      modifies this
      ensures Valid()
      ensures currentTrackResults == results && currentTrackIndex == 1 && currentTrack == Some(track)
      ensures Bound() + 1 == Weigh()(track) + old(Remaining())
      ensures tracksIterator.JustYielded(track) == old(tracksIterator.JustYielded(track))
      ensures old(LaterFrom(track))
        == Consumption.Prepend([results[0]], Stream())
    {
      EditsOfListingFront(variations, request, track, tracksIterator.Stream());
      assert results == [results[0]] + results[1..];
      Consumption.PrependTwice([results[0]], results[1..], Later());
      currentTrackResults := results;
      currentTrackIndex := 1;
      currentTrack := Some(track);
      assert Pending() == results[1..];
    }

    /**
     * `collect_all`: every edit the discovery still yields, in order, until
     * the artist's tracks run out, or the first error.
     */
    method CollectAll() returns (r: Result<seq<ExactScrobbleEdit>, LastFmError>)
      requires Valid()
      modifies this, tracksIterator, tracksIterator.albumIterator, tracksIterator.currentAlbumTracks
      ensures r == old(Stream())
      ensures r.Ok? ==> tracksIterator.finished && forall e :: e in r.value ==> Shaped(e, request)
    {
      var items: seq<ExactScrobbleEdit> := [];
      ghost var all := Stream();
      Consumption.PrependEmpty(all);
      while true
        invariant Valid()
        invariant tracksIterator.albumIterator == null || tracksIterator.albumIterator == old(tracksIterator.albumIterator)
                  || fresh(tracksIterator.albumIterator)
        invariant tracksIterator.currentAlbumTracks == null || tracksIterator.currentAlbumTracks == old(tracksIterator.currentAlbumTracks)
                  || fresh(tracksIterator.currentAlbumTracks)
        invariant forall e :: e in items ==> Shaped(e, request)
        invariant all == Consumption.Prepend(items, Stream())
        decreases Bound()
      {
        var next := Next();
        if next.Err? {
          return Err(next.error);
        }
        if next.value.None? {
          assert items + [] == items;
          return Ok(items);
        }
        CandidatesForShaped(variations, request, currentTrack.value, next.value.value);
        Consumption.PrependTwice(items, [next.value.value], Stream());
        items := items + [next.value.value];
      }
    }
  }

  /**
   * A fresh discovery collects the candidates of every track of the artist,
   * album by album, or the first error of the listings.
   */
  method DiscoverAll(request: ScrobbleEdit, variations: string -> Result<seq<ExactScrobbleEdit>, LastFmError>,
                     albumSource: seq<Result<Page<Album>, LastFmError>>,
                     albumTracks: string -> Result<Page<Track>, LastFmError>)
    returns (r: Result<seq<ExactScrobbleEdit>, LastFmError>)
    ensures r == ArtistEdits(request, variations, albumSource, albumTracks)
    ensures r.Ok? ==> forall e :: e in r.value ==> Shaped(e, request)
  {
    var discovery := new ArtistTracksDiscovery(request, variations, albumSource, albumTracks);
    r := discovery.CollectAll();
  }
}
