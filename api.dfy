/**
 * Reading a page of the Last.fm web API's `user.getRecentTracks` answer,
 * once the JSON is decoded into the records below: "now playing" entries
 * and entries without a usable date are dropped, and the pagination
 * attributes decide whether a next page exists.
 */
module ApiRecentTracks {
  import opened Wrappers
  import opened Text
  import opened LastFmTypes

  /** The `@attr` of a track entry. */
  datatype TrackAttr = TrackAttr(nowPlaying: Option<string>)

  /** One entry of `recenttracks.track`, with its `#text` fields read out. */
  datatype ApiTrack = ApiTrack(
    name: string,
    artist: string,
    album: string,
    /** The `date.uts` field, when there is a `date`. */
    uts: Option<string>,
    attr: Option<TrackAttr>)

  /** `recenttracks`: the entries and the `page` and `totalPages` attributes, as text. */
  datatype ApiRecentTracks = ApiRecentTracks(tracks: seq<ApiTrack>, page: string, totalPages: string)

  /** An entry marked as playing now. */
  predicate IsNowPlaying(t: ApiTrack) {
    t.attr.Some? && t.attr.value.nowPlaying == Some("true")
  }

  /** The track an entry becomes: one play at its timestamp, the artist also as album artist; none without a `u64` date. */
  function TrackOf(t: ApiTrack): (r: Option<Track>)
    ensures r.Some? <==> t.uts.Some? && ParseU64(t.uts.value).Some?
    ensures r.Some? ==> r.value == Track(t.name, t.artist, 1, ParseU64(t.uts.value), Some(t.album), Some(t.artist))
  {
    if t.uts.Some? && ParseU64(t.uts.value).Some? then
      Some(Track(t.name, t.artist, 1, ParseU64(t.uts.value), Some(t.album), Some(t.artist)))
    else None
  }

  /** The filter and the `filter_map` of the entries, in order. */
  function KeptTracks(entries: seq<ApiTrack>): (kept: seq<Track>)
    ensures |kept| <= |entries|
    decreases |entries|
  {
    if entries == [] then []
    else
      var rest := KeptTracks(entries[1..]);
      if IsNowPlaying(entries[0]) then rest
      else match TrackOf(entries[0])
        case Some(t) => [t] + rest
        case None => rest
  }

  /** The page read from a decoded answer, or the decoder's error text as a parse error. */
  function ParseRecentTracks(decoded: Result<ApiRecentTracks, string>): (r: Result<Page<Track>, LastFmError>)
    ensures decoded.Err? ==> r == Err(Parse(decoded.error))
    ensures decoded.Ok? ==> r.Ok? && r.value.items == KeptTracks(decoded.value.tracks)
  {
    match decoded
    case Err(msg) => Err(Parse(msg))
    case Ok(answer) =>
      var current := ParseU32(answer.page).UnwrapOr(1);
      var total := ParseU32(answer.totalPages).UnwrapOr(1);
      Ok(Page(KeptTracks(answer.tracks), current, current < total, Some(total)))
  }

  /**
   * A track is kept exactly when it comes from an entry that is not playing
   * now and has a date that parses; every kept track is one play, has a
   * timestamp, an album, and its artist as album artist.
   */
  lemma {:induction false} KeptTracksMembers(entries: seq<ApiTrack>)
    ensures forall t :: t in KeptTracks(entries) <==>
      exists e :: e in entries && !IsNowPlaying(e) && TrackOf(e) == Some(t)
    ensures forall t :: t in KeptTracks(entries) ==>
      t.playcount == 1 && t.timestamp.Some? && t.album.Some? && t.albumArtist == Some(t.artist)
    decreases |entries|
  {
    if entries != [] {
      KeptTracksMembers(entries[1..]);
      forall t | exists e :: e in entries && !IsNowPlaying(e) && TrackOf(e) == Some(t)
        ensures t in KeptTracks(entries)
      {
        var e :| e in entries && !IsNowPlaying(e) && TrackOf(e) == Some(t);
        if e != entries[0] {
          assert e in entries[1..];
        }
      }
    }
  }

  /** Entries are read independently and in order: the tracks of two runs of entries are those of each, in turn. */
  lemma {:induction false} KeptTracksAppend(a: seq<ApiTrack>, b: seq<ApiTrack>)
    ensures KeptTracks(a + b) == KeptTracks(a) + KeptTracks(b)
    decreases |a|
  {
    if a != [] {
      assert (a + b)[1..] == a[1..] + b;
      KeptTracksAppend(a[1..], b);
    } else {
      assert a + b == b;
    }
  }

  /**
   * The pagination: the page number and total are the attributes, `1` when
   * they do not parse as `u32`; a next page exists exactly when the page is
   * below the total; the total is always known.
   */
  lemma ParsePagination(answer: ApiRecentTracks)
    ensures var r := ParseRecentTracks(Ok(answer));
      var current := if ParseU32(answer.page).Some? then ParseU32(answer.page).value else 1;
      var total := if ParseU32(answer.totalPages).Some? then ParseU32(answer.totalPages).value else 1;
      r.Ok? && r.value.pageNumber == current && r.value.totalPages == Some(total)
      && (r.value.hasNextPage <==> current < total)
  {
  }

  /** The source's example: the now-playing entry is dropped and page 1 of 5 has a next page. */
  lemma ExampleAnswer()
    ensures var played := ApiTrack("Test Track", "Test Artist", "Test Album", Some("17"), None);
      var playing := ApiTrack("Now Playing", "Some Artist", "Some Album", None, Some(TrackAttr(Some("true"))));
      ParseRecentTracks(Ok(ApiRecentTracks([played, playing], "1", "5")))
        == Ok(Page([Track("Test Track", "Test Artist", 1, Some(17), Some("Test Album"), Some("Test Artist"))],
                   1, true, Some(5)))
  {
    var played := ApiTrack("Test Track", "Test Artist", "Test Album", Some("17"), None);
    var playing := ApiTrack("Now Playing", "Some Artist", "Some Album", None, Some(TrackAttr(Some("true"))));
    assert DigitsValue("17") == 17 by {
      assert "17"[..1] == "1";
      assert DigitsValue("1") == 1 by { assert "1"[..0] == ""; }
    }
    assert DigitsValue("1") == 1 by { assert "1"[..0] == ""; }
    assert DigitsValue("5") == 5 by { assert "5"[..0] == ""; }
    assert ParseU64("17") == Some(17);
    assert ParseU32("1") == Some(1);
    assert ParseU32("5") == Some(5);
    assert TrackOf(played) == Some(Track("Test Track", "Test Artist", 1, Some(17), Some("Test Album"), Some("Test Artist")));
    assert [played, playing][1..] == [playing];
    assert KeptTracks([playing]) == [] by { assert [playing][1..] == []; }
    assert !IsNowPlaying(played);
    assert KeptTracks([played, playing]) == [TrackOf(played).value] + KeptTracks([playing]);
    var answer := ApiRecentTracks([played, playing], "1", "5");
    assert ParseU32(answer.page).UnwrapOr(1) == 1;
    assert ParseU32(answer.totalPages).UnwrapOr(1) == 5;
    assert ParseRecentTracks(Ok(answer)) == Ok(Page(KeptTracks([played, playing]), 1, true, Some(5)));
    assert KeptTracks([played, playing]) == [Track("Test Track", "Test Artist", 1, Some(17), Some("Test Album"), Some("Test Artist"))];
  }
}
