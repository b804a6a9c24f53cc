/**
 * `ScrobbleEditContext`: a track from a listing, ready to be edited, and the
 * `ScrobbleEdit` it turns into under its strategy (every scrobble of the
 * track, or the given scrobbles).
 */
module EditContexts {
  import opened Wrappers
  import opened Text
  import opened LastFmTypes
  import opened ScrobbleEdits
  import RecentSearch
  import EditForms

  datatype EditStrategy = EditAll | SpecificScrobbles(timestamps: seq<nat>)

  datatype EditContext = EditContext(
    trackName: string,
    artistName: string,
    strategy: EditStrategy,
    albumName: Option<string>,
    /** The listing's play count, a hint of how many scrobbles an edit of all would touch. */
    playcount: nat)

  /** `from_track_listing`: the listing's data, to edit every scrobble. */
  function FromTrackListing(trackName: string, artistName: string, playcount: nat, albumName: Option<string>): (r: EditContext)
    ensures r.strategy == EditStrategy.EditAll
    ensures r.trackName == trackName && r.artistName == artistName && r.playcount == playcount && r.albumName == albumName
  {
    EditContext(trackName, artistName, EditStrategy.EditAll, albumName, playcount)
  }

  /** `into_edit_context` of a track: its name, artist and play count, no album, every scrobble. */
  function IntoEditContext(t: Track): (r: EditContext)
    ensures r.strategy == EditStrategy.EditAll && r.albumName.None?
    ensures r.trackName == t.name && r.artistName == t.artist && r.playcount == t.playcount
  {
    FromTrackListing(t.name, t.artist, t.playcount, None)
  }

  /** The renaming of `track` (with album `originalAlbum`) by `artist` into `newTrack` on `targetAlbum`. */
  function Rename(track: string, originalAlbum: string, artist: string, timestamp: nat,
                  newTrack: string, targetAlbum: string, editAll: bool): ScrobbleEdit {
    WithEditAll(WithAlbumName(WithTrackName(FromTrackInfo(track, originalAlbum, artist, timestamp), newTrack), targetAlbum), editAll)
  }

  /** What a `Rename` holds: the originals, the artist unchanged, the two new names. */
  lemma RenameFields(track: string, originalAlbum: string, artist: string, timestamp: nat,
                     newTrack: string, targetAlbum: string, editAll: bool)
    ensures var r := Rename(track, originalAlbum, artist, timestamp, newTrack, targetAlbum, editAll);
      r.trackNameOriginal == Some(track) && r.albumNameOriginal == Some(originalAlbum)
      && r.artistNameOriginal == artist && r.albumArtistNameOriginal == Some(artist)
      && r.trackName == Some(newTrack) && r.albumName == Some(targetAlbum)
      && r.artistName == artist && r.albumArtistName == Some(artist)
      && r.timestamp == Some(timestamp) && r.editAll == editAll
  {
    var e0 := FromTrackInfo(track, originalAlbum, artist, timestamp);
    var e1 := WithTrackName(e0, newTrack);
    var e2 := WithAlbumName(e1, targetAlbum);
    assert e2.artistName == e1.artistName == e0.artistName;
  }

  /** The scrobble a strategy points at: 0 for every scrobble, else the first timestamp (0 when there is none). */
  function StrategyTimestamp(s: EditStrategy): nat {
    match s
    case EditAll => 0
    case SpecificScrobbles(ts) => if ts == [] then 0 else ts[0]
  }

  /**
   * `create_edit`: the context's track renamed. The original album is the
   * context's album, or else the track name; the target album is the new
   * album, or else the new track name.
   */
  function CreateEdit(ctx: EditContext, newTrack: string, newAlbum: Option<string>): (r: ScrobbleEdit)
    ensures r.trackNameOriginal == Some(ctx.trackName)
    ensures r.albumNameOriginal == Some(ctx.albumName.UnwrapOr(ctx.trackName))
    ensures r.artistNameOriginal == ctx.artistName && r.albumArtistNameOriginal == Some(ctx.artistName)
    ensures r.trackName == Some(newTrack) && r.albumName == Some(newAlbum.UnwrapOr(newTrack))
    ensures r.artistName == ctx.artistName && r.albumArtistName == Some(ctx.artistName)
    ensures ctx.strategy.EditAll? ==> r.editAll && r.timestamp == Some(0)
    ensures ctx.strategy.SpecificScrobbles? ==>
      !r.editAll && r.timestamp == Some(if ctx.strategy.timestamps == [] then 0 else ctx.strategy.timestamps[0])
  {
    var originalAlbum := ctx.albumName.UnwrapOr(ctx.trackName);
    var targetAlbum := newAlbum.UnwrapOr(newTrack);
    RenameFields(ctx.trackName, originalAlbum, ctx.artistName, StrategyTimestamp(ctx.strategy), newTrack, targetAlbum,
                 ctx.strategy.EditAll?);
    match ctx.strategy
    case EditAll => Rename(ctx.trackName, originalAlbum, ctx.artistName, 0, newTrack, targetAlbum, true)
    case SpecificScrobbles(ts) =>
      Rename(ctx.trackName, originalAlbum, ctx.artistName, if ts == [] then 0 else ts[0], newTrack, targetAlbum, false)
  }

  /**
   * Asking for the names the context already has gives an edit that
   * changes nothing; an edit always keeps the artist.
   */
  lemma CreateEditUnchangedNames(ctx: EditContext, newAlbum: Option<string>)
    requires newAlbum == Some(ctx.albumName.UnwrapOr(ctx.trackName))
    ensures KeepsOriginals(CreateEdit(ctx, ctx.trackName, newAlbum))
  {
  }

  /**
   * `describe_edit`: for every scrobble, the track, artist, new name and the
   * approximate number of scrobbles (the play count); for given scrobbles,
   * how many timestamps there are, then the track, artist and new name.
   */
  function DescribeEdit(ctx: EditContext, newTrack: string): (r: string)
    ensures ctx.strategy.EditAll? ==>
      r == "Will edit ALL instances of '" + ctx.trackName + "' by '" + ctx.artistName
           + "' to '" + newTrack + "' (approximately " + NatToString(ctx.playcount) + " scrobbles)"
    ensures ctx.strategy.SpecificScrobbles? ==>
      r == "Will edit " + NatToString(|ctx.strategy.timestamps|) + " specific scrobbles of '"
           + ctx.trackName + "' by '" + ctx.artistName + "' to '" + newTrack + "'"
  {
    match ctx.strategy
    case EditAll =>
      "Will edit ALL instances of '" + ctx.trackName + "' by '" + ctx.artistName
      + "' to '" + newTrack + "' (approximately " + NatToString(ctx.playcount) + " scrobbles)"
    case SpecificScrobbles(ts) =>
      "Will edit " + NatToString(|ts|) + " specific scrobbles of '"
      + ctx.trackName + "' by '" + ctx.artistName + "' to '" + newTrack + "'"
  }

  /** The documented example: renaming a listed track played 15 times. */
  lemma DescribeEditExample()
    ensures DescribeEdit(FromTrackListing("Old Name", "Artist", 15, None), "New Name")
      == "Will edit ALL instances of 'Old Name' by 'Artist' to 'New Name' (approximately 15 scrobbles)"
  {
    assert NatToString(15) == "15" by { assert NatToString(1) == "1"; }
    ExampleAllText();
  }

  lemma ExampleAllText()
    ensures "Will edit ALL instances of '" + "Old Name" + "' by '" + "Artist" + "' to '" + "New Name"
            + "' (approximately " + "15" + " scrobbles)"
      == "Will edit ALL instances of 'Old Name' by 'Artist' to 'New Name' (approximately 15 scrobbles)"
  {
    ExampleAllHead();
  }

  lemma ExampleAllHead()
    ensures "Will edit ALL instances of '" + "Old Name" + "' by '" + "Artist" + "' to '" + "New Name"
      == "Will edit ALL instances of 'Old Name' by 'Artist' to 'New Name"
  {
    assert "Will edit ALL instances of '" + "Old Name" + "' by '" + "Artist"
      == "Will edit ALL instances of 'Old Name' by 'Artist";
  }

  /** Two given scrobbles of a track are described by their count. */
  lemma DescribeSpecificExample(t1: nat, t2: nat)
    ensures DescribeEdit(EditContext("Song", "Band", SpecificScrobbles([t1, t2]), None, 1), "Tune")
      == "Will edit 2 specific scrobbles of 'Song' by 'Band' to 'Tune'"
  {
    assert NatToString(2) == "2";
    ExampleSpecificText();
  }

  lemma ExampleSpecificText()
    ensures "Will edit " + "2" + " specific scrobbles of '" + "Song" + "' by '" + "Band"
            + "' to '" + "Tune" + "'"
      == "Will edit 2 specific scrobbles of 'Song' by 'Band' to 'Tune'"
  {
    assert "Will edit " + "2" + " specific scrobbles of '" + "Song"
      == "Will edit 2 specific scrobbles of 'Song";
  }

  /** How many pages of recent scrobbles `execute_edit` and `execute_edit_with_real_data` search. */
  const ExecuteEditPages: nat := 3
  const RealDataPages: nat := 5

  /** The newest scrobble of the context's track on pages `1..=maxPages`; `recent(p)` is page `p`. */
  function RecentScrobble(ctx: EditContext, recent: nat -> Result<seq<Track>, LastFmError>, maxPages: nat)
    : Result<Option<Track>, LastFmError>
  {
    RecentSearch.SearchPages(recent, t => EditForms.IsScrobbleOf(t, ctx.trackName, ctx.artistName), 1, maxPages)
  }

  /**
   * The edit `execute_edit` submits. For every scrobble it first looks for a
   * recent scrobble of the track: a failed lookup is the error; a found
   * timestamped scrobble gives an edit of every scrobble from that
   * timestamp, with the track name as the original album; otherwise, and for
   * given scrobbles, the edit of `create_edit`.
   */
  function ExecuteEditRequest(ctx: EditContext, recent: nat -> Result<seq<Track>, LastFmError>,
                              newTrack: string, newAlbum: Option<string>): Result<ScrobbleEdit, LastFmError>
  {
    match ctx.strategy
    case SpecificScrobbles(_) => Ok(CreateEdit(ctx, newTrack, newAlbum))
    case EditAll =>
      match RecentScrobble(ctx, recent, ExecuteEditPages)
      case Err(e) => Err(e)
      case Ok(found) =>
        if found.Some? && found.value.timestamp.Some? then
          Ok(Rename(ctx.trackName, ctx.trackName, ctx.artistName, found.value.timestamp.value,
                    newTrack, newAlbum.UnwrapOr(newTrack), true))
        else Ok(CreateEdit(ctx, newTrack, newAlbum))
  }

  /**
   * Whatever the lookup finds, `execute_edit` renames the context's track
   * by its artist into the new names and edits every scrobble unless given
   * scrobbles; given scrobbles never wait on a lookup. Once a timestamped
   * scrobble is found, the context's album is no longer the original album.
   */
  lemma ExecuteEditRequestFacts(ctx: EditContext, recent: nat -> Result<seq<Track>, LastFmError>,
                                newTrack: string, newAlbum: Option<string>)
    ensures var r := ExecuteEditRequest(ctx, recent, newTrack, newAlbum);
      (r.Ok? ==>
         r.value.trackNameOriginal == Some(ctx.trackName) && r.value.artistNameOriginal == ctx.artistName
         && r.value.trackName == Some(newTrack) && r.value.albumName == Some(newAlbum.UnwrapOr(newTrack))
         && r.value.artistName == ctx.artistName && (r.value.editAll <==> ctx.strategy.EditAll?))
      && (r.Err? ==> ctx.strategy.EditAll? && RecentScrobble(ctx, recent, ExecuteEditPages) == Err(r.error))
      && (ctx.strategy.EditAll? && RecentScrobble(ctx, recent, ExecuteEditPages).Ok?
          && RecentScrobble(ctx, recent, ExecuteEditPages).value.Some?
          && RecentScrobble(ctx, recent, ExecuteEditPages).value.value.timestamp.Some? ==>
            r.Ok? && r.value.albumNameOriginal == Some(ctx.trackName)
            && r.value.timestamp == RecentScrobble(ctx, recent, ExecuteEditPages).value.value.timestamp)
  {
    var found := RecentScrobble(ctx, recent, ExecuteEditPages);
    if ctx.strategy.EditAll? && found.Ok? && found.value.Some? && found.value.value.timestamp.Some? {
      RenameFields(ctx.trackName, ctx.trackName, ctx.artistName, found.value.value.timestamp.value,
                   newTrack, newAlbum.UnwrapOr(newTrack), true);
    }
  }

  /** The error when the lookup finds no scrobble of the track. */
  function NoRecentScrobbleMessage(ctx: EditContext): string {
    "No recent scrobble found for '" + ctx.trackName + "' by '" + ctx.artistName + "'"
  }

  /**
   * The edit `execute_edit_with_real_data` submits: built from the newest
   * scrobble of the track within five pages, editing every scrobble from
   * its timestamp; a scrobble without a timestamp, or none, is a parse
   * error.
   */
  function RealDataRequest(ctx: EditContext, recent: nat -> Result<seq<Track>, LastFmError>,
                           newTrack: string, newAlbum: Option<string>): Result<ScrobbleEdit, LastFmError>
  {
    match RecentScrobble(ctx, recent, RealDataPages)
    case Err(e) => Err(e)
    case Ok(None) => Err(Parse(NoRecentScrobbleMessage(ctx)))
    case Ok(Some(t)) =>
      if t.timestamp.None? then Err(Parse("Found recent scrobble but no timestamp available"))
      else Ok(Rename(t.name, t.name, t.artist, t.timestamp.value, newTrack, newAlbum.UnwrapOr(newTrack), true))
  }

  /**
   * A real-data edit renames the context's own track and artist (the found
   * scrobble is one of theirs), from a timestamp of a scrobble found within
   * five pages; with no such scrobble on five fetched pages it fails with
   * the not-found error.
   */
  lemma RealDataRequestFacts(ctx: EditContext, recent: nat -> Result<seq<Track>, LastFmError>,
                             newTrack: string, newAlbum: Option<string>)
    ensures var r := RealDataRequest(ctx, recent, newTrack, newAlbum);
      (r.Ok? ==>
         r.value.trackNameOriginal == Some(ctx.trackName) && r.value.albumNameOriginal == Some(ctx.trackName)
         && r.value.artistNameOriginal == ctx.artistName && r.value.editAll
         && r.value.trackName == Some(newTrack) && r.value.albumName == Some(newAlbum.UnwrapOr(newTrack))
         && exists p, t :: 1 <= p <= RealDataPages && recent(p).Ok? && t in recent(p).value
                           && EditForms.IsScrobbleOf(t, ctx.trackName, ctx.artistName)
                           && r.value.timestamp == t.timestamp)
      && ((forall p :: 1 <= p <= RealDataPages ==>
             recent(p).Ok? && forall t :: t in recent(p).value ==> !EditForms.IsScrobbleOf(t, ctx.trackName, ctx.artistName))
          ==> r == Err(Parse(NoRecentScrobbleMessage(ctx))))
  {
    var test := t => EditForms.IsScrobbleOf(t, ctx.trackName, ctx.artistName);
    RecentSearch.SearchPagesFacts(recent, test, 1, RealDataPages);
    var found := RecentScrobble(ctx, recent, RealDataPages);
    if found.Ok? && found.value.Some? {
      var t := found.value.value;
      var p :| 1 <= p <= RealDataPages && recent(p).Ok? && RecentSearch.FirstWhere(recent(p).value, test) == found.value;
      assert t in recent(p).value && EditForms.IsScrobbleOf(t, ctx.trackName, ctx.artistName);
      if t.timestamp.Some? {
        RenameFields(t.name, t.name, t.artist, t.timestamp.value, newTrack, newAlbum.UnwrapOr(newTrack), true);
      }
    }
  }
}
