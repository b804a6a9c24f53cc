/**
 * What every discovery strategy does with the variations loaded for one
 * track: overlay the user's requested changes on each of them and keep only
 * those with the requested original album artist.
 */
module DiscoveryCommon {
  import opened Wrappers
  import opened LastFmTypes
  import opened ScrobbleEdits
  import opened Seqs

  /** `e` has the original album artist the request asks for, if it asks for one. */
  predicate MatchesAlbumArtist(e: ExactScrobbleEdit, request: ScrobbleEdit) {
    request.albumArtistNameOriginal.None? || e.albumArtistNameOriginal == request.albumArtistNameOriginal.value
  }

  /** The edits whose original album artist is `target`, in their order. */
  function KeepAlbumArtist(edits: seq<ExactScrobbleEdit>, target: string): (r: seq<ExactScrobbleEdit>)
    ensures |r| <= |edits|
    ensures forall e :: e in r <==> e in edits && e.albumArtistNameOriginal == target
  {
    if edits == [] then []
    else (if edits[0].albumArtistNameOriginal == target then [edits[0]] else []) + KeepAlbumArtist(edits[1..], target)
  }

  /**
   * `filter_by_original_album_artist`: without an original album artist in the
   * request the list is kept as it is; with one, exactly the edits that have
   * it are kept.
   */
  function FilterByOriginalAlbumArtist(edits: seq<ExactScrobbleEdit>, request: ScrobbleEdit): (r: seq<ExactScrobbleEdit>)
    ensures request.albumArtistNameOriginal.None? ==> r == edits
    ensures forall e :: e in r <==> e in edits && MatchesAlbumArtist(e, request)
    ensures |r| <= |edits|
  {
    match request.albumArtistNameOriginal
    case None => edits
    case Some(target) => KeepAlbumArtist(edits, target)
  }

  lemma {:induction false} KeepIsSubsequence(edits: seq<ExactScrobbleEdit>, target: string)
    ensures IsSubsequence(KeepAlbumArtist(edits, target), edits)
    decreases |edits|
  {
    if edits != [] {
      KeepIsSubsequence(edits[1..], target);
      var rest := KeepAlbumArtist(edits[1..], target);
      if edits[0].albumArtistNameOriginal == target {
        assert KeepAlbumArtist(edits, target) == [edits[0]] + rest;
        assert ([edits[0]] + rest)[1..] == rest;
      } else {
        assert KeepAlbumArtist(edits, target) == rest;
        if rest != [] {
          assert rest[0] in rest;
          assert rest[0] != edits[0];
        }
      }
    }
  }

  /** Filtering keeps the input's order: its result is a subsequence of the input. */
  lemma FilterIsSubsequence(edits: seq<ExactScrobbleEdit>, request: ScrobbleEdit)
    ensures IsSubsequence(FilterByOriginalAlbumArtist(edits, request), edits)
  {
    if request.albumArtistNameOriginal.Some? {
      KeepIsSubsequence(edits, request.albumArtistNameOriginal.value);
    } else {
      SubsequenceOfItself(edits);
    }
  }

  lemma {:induction false} KeepAppend(a: seq<ExactScrobbleEdit>, b: seq<ExactScrobbleEdit>, target: string)
    ensures KeepAlbumArtist(a + b, target) == KeepAlbumArtist(a, target) + KeepAlbumArtist(b, target)
    decreases |a|
  {
    if a == [] {
      assert a + b == b;
    } else {
      assert (a + b)[1..] == a[1..] + b;
      KeepAppend(a[1..], b, target);
    }
  }

  /** Filtering a concatenation filters each part: edits keep their relative order. */
  lemma FilterAppend(a: seq<ExactScrobbleEdit>, b: seq<ExactScrobbleEdit>, request: ScrobbleEdit)
    ensures FilterByOriginalAlbumArtist(a + b, request)
         == FilterByOriginalAlbumArtist(a, request) + FilterByOriginalAlbumArtist(b, request)
  {
    if request.albumArtistNameOriginal.Some? {
      KeepAppend(a, b, request.albumArtistNameOriginal.value);
    }
  }

  lemma {:induction false} KeepTwice(edits: seq<ExactScrobbleEdit>, target: string)
    ensures KeepAlbumArtist(KeepAlbumArtist(edits, target), target) == KeepAlbumArtist(edits, target)
    decreases |edits|
  {
    if edits != [] {
      KeepTwice(edits[1..], target);
      var head := if edits[0].albumArtistNameOriginal == target then [edits[0]] else [];
      KeepAppend(head, KeepAlbumArtist(edits[1..], target), target);
      if head != [] {
        assert KeepAlbumArtist(head, target) == head by {
          assert head[1..] == [];
        }
      }
    }
  }

  /** Filtering twice is filtering once. */
  lemma FilterIdempotent(edits: seq<ExactScrobbleEdit>, request: ScrobbleEdit)
    ensures FilterByOriginalAlbumArtist(FilterByOriginalAlbumArtist(edits, request), request)
         == FilterByOriginalAlbumArtist(edits, request)
  {
    if request.albumArtistNameOriginal.Some? {
      KeepTwice(edits, request.albumArtistNameOriginal.value);
    }
  }

  /** The request overlaid on each found edit, in order. */
  function OverlayAll(found: seq<ExactScrobbleEdit>, request: ScrobbleEdit): (r: seq<ExactScrobbleEdit>)
    ensures |r| == |found|
  {
    seq(|found|, i requires 0 <= i < |found| => Overlay(found[i], request))
  }

  /**
   * The loop every strategy runs over a track's loaded variations: each is
   * copied, given the requested changes and pushed.
   */
  method OverlayEach(found: seq<ExactScrobbleEdit>, request: ScrobbleEdit) returns (modified: seq<ExactScrobbleEdit>)
    ensures modified == OverlayAll(found, request)
  {
    modified := [];
    for i := 0 to |found|
      invariant modified == OverlayAll(found[..i], request)
    {
      assert found[..i + 1] == found[..i] + [found[i]];
      modified := modified + [Overlay(found[i], request)];
    }
    assert found[..|found|] == found;
  }

  /** What a strategy yields for one track's variations: overlaid, then filtered. */
  function Candidates(found: seq<ExactScrobbleEdit>, request: ScrobbleEdit): seq<ExactScrobbleEdit> {
    FilterByOriginalAlbumArtist(OverlayAll(found, request), request)
  }

  /** What the user asked for shows in an edit: overlaid and of the right original album artist. */
  predicate Shaped(e: ExactScrobbleEdit, request: ScrobbleEdit) {
    e.artistName == request.artistName
    && e.editAll == request.editAll
    && (request.trackName.Some? ==> e.trackName == request.trackName.value)
    && (request.albumName.Some? ==> e.albumName == request.albumName.value)
    && (request.albumArtistName.Some? ==> e.albumArtistName == request.albumArtistName.value)
    && MatchesAlbumArtist(e, request)
  }

  /** Every candidate is a found edit with the request overlaid, and shows the request. */
  lemma CandidatesShaped(found: seq<ExactScrobbleEdit>, request: ScrobbleEdit, e: ExactScrobbleEdit)
    requires e in Candidates(found, request)
    ensures Shaped(e, request)
    ensures exists k :: 0 <= k < |found| && e == Overlay(found[k], request)
  {
    var all := OverlayAll(found, request);
    assert e in all;
    var k :| 0 <= k < |all| && all[k] == e;
  }

  lemma OverlayAllAppend(a: seq<ExactScrobbleEdit>, b: seq<ExactScrobbleEdit>, request: ScrobbleEdit)
    ensures OverlayAll(a + b, request) == OverlayAll(a, request) + OverlayAll(b, request)
  {
  }

  /** The overlay of a one-edit list is the list of its overlay. */
  lemma OverlayAllSingle(x: ExactScrobbleEdit, request: ScrobbleEdit)
    ensures OverlayAll([x], request) == [Overlay(x, request)]
  {
  }

  /** Keeping one original album artist among overlaid edits, split at the first one. */
  lemma KeepOverlaidHead(x: ExactScrobbleEdit, rest: seq<ExactScrobbleEdit>, request: ScrobbleEdit, target: string)
    ensures KeepAlbumArtist(OverlayAll([x] + rest, request), target)
         == (if x.albumArtistNameOriginal == target then [Overlay(x, request)] else [])
            + KeepAlbumArtist(OverlayAll(rest, request), target)
  {
    var all := OverlayAll([x] + rest, request);
    OverlayAllAppend([x], rest, request);
    OverlayAllSingle(x, request);
    assert all[0] == Overlay(x, request);
    assert all[1..] == OverlayAll(rest, request);
  }

  /** Keeping one original album artist commutes with the overlay, which leaves that field alone. */
  lemma {:induction false} KeepOverlay(found: seq<ExactScrobbleEdit>, request: ScrobbleEdit, target: string)
    ensures KeepAlbumArtist(OverlayAll(found, request), target) == OverlayAll(KeepAlbumArtist(found, target), request)
    decreases |found|
  {
    if found != [] {
      var x := found[0];
      var head := if x.albumArtistNameOriginal == target then [x] else [];
      var keptRest := KeepAlbumArtist(found[1..], target);
      assert found == [x] + found[1..];
      KeepOverlaidHead(x, found[1..], request, target);
      KeepOverlay(found[1..], request, target);
      assert KeepAlbumArtist(found, target) == head + keptRest;
      OverlayAllAppend(head, keptRest, request);
      if x.albumArtistNameOriginal == target {
        OverlayAllSingle(x, request);
      } else {
        assert OverlayAll(head, request) == [];
      }
    }
  }

  /**
   * Overlaying keeps the original album artist, so filtering before or after
   * the overlay gives the same edits (exact-match discovery filters first).
   */
  lemma CandidatesFilterFirst(found: seq<ExactScrobbleEdit>, request: ScrobbleEdit)
    ensures Candidates(found, request) == OverlayAll(FilterByOriginalAlbumArtist(found, request), request)
  {
    if request.albumArtistNameOriginal.Some? {
      KeepOverlay(found, request, request.albumArtistNameOriginal.value);
    }
  }

  /** What a strategy yields for a track: the candidates of its variations, or nothing when their load fails. */
  function CandidatesFor(variations: string -> Result<seq<ExactScrobbleEdit>, LastFmError>,
                         request: ScrobbleEdit, t: Track): seq<ExactScrobbleEdit>
  {
    match variations(t.name)
    case Ok(found) => Candidates(found, request)
    case Err(_) => []
  }

  /**
   * The body of the loop over tracks in the album and artist strategies: the
   * track's variations are loaded, each gets the requested changes, and the
   * album-artist filter is applied. A failed load gives nothing.
   */
  method LoadCandidates(variations: string -> Result<seq<ExactScrobbleEdit>, LastFmError>,
                        request: ScrobbleEdit, t: Track) returns (c: seq<ExactScrobbleEdit>)
    ensures c == CandidatesFor(variations, request, t)
  {
    var loaded := variations(t.name);
    if loaded.Err? {
      return [];
    }
    var modified := OverlayEach(loaded.value, request);
    c := FilterByOriginalAlbumArtist(modified, request);
  }

  /** A track's candidates come from its successfully loaded variations and show the request. */
  lemma CandidatesForShaped(variations: string -> Result<seq<ExactScrobbleEdit>, LastFmError>,
                            request: ScrobbleEdit, t: Track, e: ExactScrobbleEdit)
    requires e in CandidatesFor(variations, request, t)
    ensures variations(t.name).Ok? && Shaped(e, request)
  {
    CandidatesShaped(variations(t.name).value, request, e);
  }

  /** What a strategy yields for a list of tracks, track by track. */
  function EditsOfTracks(variations: string -> Result<seq<ExactScrobbleEdit>, LastFmError>,
                         request: ScrobbleEdit, tracks: seq<Track>): seq<ExactScrobbleEdit>
  {
    if tracks == [] then [] else CandidatesFor(variations, request, tracks[0]) + EditsOfTracks(variations, request, tracks[1..])
  }

  lemma EditsOfTracksFront(variations: string -> Result<seq<ExactScrobbleEdit>, LastFmError>,
                           request: ScrobbleEdit, t: Track, rest: seq<Track>)
    ensures EditsOfTracks(variations, request, [t] + rest)
         == CandidatesFor(variations, request, t) + EditsOfTracks(variations, request, rest)
  {
    assert ([t] + rest)[1..] == rest;
  }

  /**
   * Every edit yielded for a list of tracks shows the request and comes from
   * the successfully loaded variations of one of the tracks.
   */
  lemma {:induction false} EditsOfTracksShaped(variations: string -> Result<seq<ExactScrobbleEdit>, LastFmError>,
                                               request: ScrobbleEdit, tracks: seq<Track>, e: ExactScrobbleEdit)
    requires e in EditsOfTracks(variations, request, tracks)
    ensures Shaped(e, request)
    ensures exists k :: 0 <= k < |tracks| && variations(tracks[k].name).Ok?
                        && e in Candidates(variations(tracks[k].name).value, request)
    decreases |tracks|
  {
    if e in CandidatesFor(variations, request, tracks[0]) {
      CandidatesForShaped(variations, request, tracks[0], e);
    } else {
      EditsOfTracksShaped(variations, request, tracks[1..], e);
      var k :| 0 <= k < |tracks[1..]| && variations(tracks[1..][k].name).Ok?
               && e in Candidates(variations(tracks[1..][k].name).value, request);
      assert tracks[1..][k] == tracks[k + 1];
    }
  }
}
