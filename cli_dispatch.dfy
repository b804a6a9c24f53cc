/**
 * `execute_command`: how the command line's flags become the arguments of
 * the command handlers. A command is a dry run unless `--apply` is given
 * without `--dry-run`; an edit applies to every matching scrobble unless
 * `--no-edit-all` is given; `delete` takes the first range option present,
 * and `show` refuses an empty offset list before fetching anything.
 *
 * What the handlers read and call is gathered in an `Env`.
 */
module CliDispatch {
  import opened Wrappers
  import opened LastFmTypes
  import opened Consumption
  import DeleteCommand
  import DeleteFacts
  import ShowCommand
  import SearchCommand
  import EditCommand

  datatype EditArgs = EditArgs(
    artist: string, track: Option<string>, album: Option<string>, albumArtist: Option<string>,
    newTrack: Option<string>, newAlbum: Option<string>, newArtist: Option<string>,
    newAlbumArtist: Option<string>, timestamp: Option<nat>, noEditAll: bool, apply: bool, dryRun: bool)

  /** The commands; the `list` commands are not modelled. */
  datatype Command =
    | Edit(args: EditArgs)
    | Delete(recentPages: Option<string>, timestampRange: Option<string>, recentOffset: Option<string>,
             apply: bool, dryRun: bool)
    | Search(searchType: SearchCommand.SearchType, query: string, limit: nat, offset: nat)
    | Show(offsets: seq<nat>)

  /**
   * What the handlers read and call: recent-scrobble pages, the answer to
   * the delete prompt and the delete calls' results, the discovery stream
   * for an edit request and the edit submissions' results, and the search
   * iterators by starting page.
   */
  datatype Env = Env(
    recent: DeleteCommand.Fetch,
    confirmation: Result<bool, string>,
    deleteOutcome: nat -> Result<bool, LastFmError>,
    discover: ScrobbleEdit -> Stream<ExactScrobbleEdit, LastFmError>,
    submit: nat -> Result<EditResponse, LastFmError>,
    trackSearch: nat -> Stream<Track, LastFmError>,
    albumSearch: nat -> Stream<Album, LastFmError>)

  datatype Outcome =
    | Edited(edit: EditCommand.EditRun)
    | Deleted(delete: DeleteCommand.Run)
    | TracksSearched(tracks: SearchCommand.SearchRun<Track>)
    | AlbumsSearched(albums: SearchCommand.SearchRun<Album>)
    | Shown(show: ShowCommand.ShowRun)
    | Refused(message: string)

  /** The dry-run resolution shared by `edit` and `delete`. */
  function IsDryRun(dryRun: bool, apply: bool): (r: bool)
    ensures !r <==> apply && !dryRun
  {
    dryRun || !apply
  }

  const NoRangeMessage := "Must specify one of: --recent-pages, --timestamp-range, or --recent-offset"
  const NoOffsetsMessage := "Must specify at least one offset to show"

  /** The edit request the command line describes. */
  function EditRequest(a: EditArgs): ScrobbleEdit {
    EditCommand.CreateScrobbleEditFromArgs(a.artist, a.track, a.album, a.albumArtist, a.newTrack, a.newAlbum,
                                           a.newArtist, a.newAlbumArtist, a.timestamp, !a.noEditAll)
  }

  /** `execute_command`. */
  function Execute(command: Command, env: Env): Outcome {
    match command
    case Edit(a) =>
      var request := EditRequest(a);
      Edited(EditCommand.HandleEdits(request, env.discover(request), IsDryRun(a.dryRun, a.apply), env.submit))
    case Delete(pages, timestamps, offsets, apply, dryRun) =>
      var isDryRun := IsDryRun(dryRun, apply);
      if pages.Some? then
        Deleted(DeleteCommand.PagesRun(env.recent, pages.value, isDryRun, env.confirmation, env.deleteOutcome))
      else if timestamps.Some? then
        Deleted(DeleteCommand.TimestampRun(env.recent, timestamps.value, isDryRun, env.confirmation, env.deleteOutcome))
      else if offsets.Some? then
        Deleted(DeleteCommand.OffsetRun(env.recent, offsets.value, isDryRun, env.confirmation, env.deleteOutcome))
      else Refused(NoRangeMessage)
    case Search(searchType, query, limit, offset) =>
      if searchType == SearchCommand.Tracks then
        TracksSearched(SearchCommand.Search(searchType, query, limit, offset, env.trackSearch))
      else AlbumsSearched(SearchCommand.Search(searchType, query, limit, offset, env.albumSearch))
    case Show(offsets) =>
      if offsets == [] then Refused(NoOffsetsMessage) else Shown(ShowCommand.Show(env.recent, offsets))
  }

  /** `execute_command`, running the handlers. */
  method ExecuteCommand(command: Command, env: Env) returns (outcome: Outcome)
    ensures outcome == Execute(command, env)
  {
    match command {
      case Edit(a) =>
        var request := EditRequest(a);
        var run := EditCommand.DiscoverAndHandleEdits(request, env.discover(request), IsDryRun(a.dryRun, a.apply), env.submit);
        outcome := Edited(run);
      case Delete(pages, timestamps, offsets, apply, dryRun) =>
        var isDryRun := dryRun || !apply;
        if pages.Some? {
          var run := DeleteCommand.HandleDeleteRecentPages(env.recent, pages.value, isDryRun, env.confirmation, env.deleteOutcome);
          outcome := Deleted(run);
        } else if timestamps.Some? {
          var run := DeleteCommand.HandleDeleteTimestampRange(env.recent, timestamps.value, isDryRun, env.confirmation, env.deleteOutcome);
          outcome := Deleted(run);
        } else if offsets.Some? {
          var run := DeleteCommand.HandleDeleteRecentOffset(env.recent, offsets.value, isDryRun, env.confirmation, env.deleteOutcome);
          outcome := Deleted(run);
        } else {
          outcome := Refused(NoRangeMessage);
        }
      case Search(searchType, query, limit, offset) =>
        if searchType == SearchCommand.Tracks {
          var run := SearchCommand.HandleSearchCommand(searchType, query, limit, offset, env.trackSearch);
          outcome := TracksSearched(run);
        } else {
          var run := SearchCommand.HandleSearchCommand(searchType, query, limit, offset, env.albumSearch);
          outcome := AlbumsSearched(run);
        }
      case Show(offsets) =>
        if offsets == [] {
          return Refused(NoOffsetsMessage);
        }
        var run := ShowCommand.HandleShowScrobbles(env.recent, offsets);
        outcome := Shown(run);
    }
  }

  // ---------------------------------------------------------------------------
  // Facts
  // ---------------------------------------------------------------------------

  /**
   * Without `--apply`, or with `--dry-run`, an edit or a delete does the
   * same whatever the prompt would be answered and whatever the edit and
   * delete calls would return: it makes none of them. An edit then submits
   * nothing.
   */
  lemma DryRunUnlessApplied(command: Command, env: Env, confirmation: Result<bool, string>,
                            deleteOutcome: nat -> Result<bool, LastFmError>,
                            submit: nat -> Result<EditResponse, LastFmError>)
    requires command.Edit? || command.Delete?
    requires command.Edit? ==> IsDryRun(command.args.dryRun, command.args.apply)
    requires command.Delete? ==> IsDryRun(command.dryRun, command.apply)
    ensures Execute(command, env)
         == Execute(command, env.(confirmation := confirmation, deleteOutcome := deleteOutcome, submit := submit))
    ensures Execute(command, env).Edited? ==> Execute(command, env).edit.submitted == []
  {
    var other := env.(confirmation := confirmation, deleteOutcome := deleteOutcome, submit := submit);
    match command
    case Edit(a) =>
      var request := EditRequest(a);
      var r1 := EditCommand.HandleEdits(request, env.discover(request), true, env.submit);
      var r2 := EditCommand.HandleEdits(request, env.discover(request), true, submit);
      assert r1.events == r2.events;
    case Delete(pages, timestamps, offsets, apply, dryRun) =>
      var range := if pages.Some? then pages.value else if timestamps.Some? then timestamps.value
                   else if offsets.Some? then offsets.value else "";
      DeleteFacts.DryRunDeletesNothing(env.recent, range, env.confirmation, confirmation, env.deleteOutcome, deleteOutcome);
  }

  /**
   * `delete` uses `--recent-pages` when given, else `--timestamp-range`,
   * else `--recent-offset`, and refuses to run with none of them.
   */
  lemma DeletePrecedence(pages: Option<string>, timestamps: Option<string>, offsets: Option<string>,
                         apply: bool, dryRun: bool, env: Env)
    ensures var o := Execute(Delete(pages, timestamps, offsets, apply, dryRun), env);
      var d := IsDryRun(dryRun, apply);
      && (pages.Some? ==>
            o == Deleted(DeleteCommand.PagesRun(env.recent, pages.value, d, env.confirmation, env.deleteOutcome)))
      && (pages.None? && timestamps.Some? ==>
            o == Deleted(DeleteCommand.TimestampRun(env.recent, timestamps.value, d, env.confirmation, env.deleteOutcome)))
      && (pages.None? && timestamps.None? && offsets.Some? ==>
            o == Deleted(DeleteCommand.OffsetRun(env.recent, offsets.value, d, env.confirmation, env.deleteOutcome)))
      && (pages.None? && timestamps.None? && offsets.None? <==> o == Refused(NoRangeMessage))
  {
  }

  /** `show` with no offsets is refused; with offsets it runs the handler. */
  lemma ShowNeedsOffsets(offsets: seq<nat>, env: Env)
    ensures Execute(Show(offsets), env).Refused? <==> offsets == []
    ensures offsets == [] ==> Execute(Show(offsets), env) == Refused(NoOffsetsMessage)
  {
  }

  /**
   * The edit request carries the command line's values, the new artist
   * defaulting to the original, and applies to all matching scrobbles unless
   * `--no-edit-all` is given.
   */
  lemma EditRequestFromFlags(a: EditArgs)
    ensures var r := EditRequest(a);
      r.artistNameOriginal == a.artist && r.artistName == a.newArtist.UnwrapOr(a.artist)
      && r.editAll == !a.noEditAll && r.timestamp == a.timestamp
  {
  }
}
