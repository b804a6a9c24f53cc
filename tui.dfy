/**
 * The key handling of the terminal track editor (`TrackEditorApp`): a mode
 * (browsing, editing, loading, error), a selected row that stays on the
 * list, an edit buffer mirrored into the edit being prepared, and the mode
 * a load of the artist's tracks ends in, and what loading an edit form and
 * saving an edit do to the list. The client's answers are parameters;
 * drawing is not modelled.
 */
module TrackEditor {
  import opened Wrappers
  import opened LastFmTypes
  import opened LegacyEdits
  import Text

  datatype AppMode = BrowseTracks | EditTrack | Loading | Error(message: string)

  datatype KeyCode = Char(c: char) | Up | Down | Enter | Esc | Backspace | OtherKey

  /** A key press; `control` is whether the Control modifier was held. */
  datatype KeyEvent = KeyEvent(code: KeyCode, control: bool)

  /** Every field of the editor, as a value. */
  datatype AppState = AppState(
    artist: string,
    tracks: seq<Track>,
    selectedTrackIndex: nat,
    mode: AppMode,
    /** The row the list widget highlights. */
    listSelection: Option<nat>,
    editField: string,
    editBuffer: string,
    loadingMessage: string,
    statusMessage: string,
    currentEdit: Option<LegacyEdit>,
    page: nat,
    hasMorePages: bool)

  /** Once there are tracks, the selected row is on the list; it is the row the list highlights. */
  predicate Inv(s: AppState) {
    (|s.tracks| > 0 ==> s.selectedTrackIndex < |s.tracks|)
    && s.listSelection == Some(s.selectedTrackIndex)
  }

  /** The new editor for `artist`. */
  function Initial(artist: string): (s: AppState)
    ensures Inv(s) && s.mode == Loading && s.page == 1 && s.hasMorePages && s.tracks == []
  {
    AppState(artist, [], 0, Loading, Some(0), "", "", "Loading tracks...", "", None, 1, true)
  }

  /** `usize::saturating_sub(1)` of a length. */
  function LastIndex(n: nat): nat {
    if n == 0 then 0 else n - 1
  }

  /** `start_edit_mode`: wait for the edit form of `track`, its name in the buffer. */
  function StartEdit(s: AppState, track: Track): AppState {
    s.(mode := Loading, loadingMessage := "Loading edit form for '" + track.name + "'...",
       editBuffer := track.name, editField := track.name)
  }

  /** `handle_browse_keys`: the new state, and whether to quit. */
  function BrowseStep(s: AppState, key: KeyEvent): (AppState, bool) {
    match key.code
    case Char('q') => (s, true)
    case Up =>
      (if s.selectedTrackIndex > 0 then s.(selectedTrackIndex := s.selectedTrackIndex - 1, listSelection := Some(s.selectedTrackIndex - 1)) else s, false)
    case Char('k') =>
      (if s.selectedTrackIndex > 0 then s.(selectedTrackIndex := s.selectedTrackIndex - 1, listSelection := Some(s.selectedTrackIndex - 1)) else s, false)
    case Down =>
      (if s.selectedTrackIndex < LastIndex(|s.tracks|) then s.(selectedTrackIndex := s.selectedTrackIndex + 1, listSelection := Some(s.selectedTrackIndex + 1)) else s, false)
    case Char('j') =>
      (if s.selectedTrackIndex < LastIndex(|s.tracks|) then s.(selectedTrackIndex := s.selectedTrackIndex + 1, listSelection := Some(s.selectedTrackIndex + 1)) else s, false)
    case Enter =>
      (if s.selectedTrackIndex < |s.tracks| then StartEdit(s, s.tracks[s.selectedTrackIndex]) else s, false)
    case Char('e') =>
      (if s.selectedTrackIndex < |s.tracks| then StartEdit(s, s.tracks[s.selectedTrackIndex]) else s, false)
    case _ => (s, false)
  }

  /** The edit being prepared, renamed to the buffer. */
  function MirrorBuffer(edit: Option<LegacyEdit>, buffer: string): Option<LegacyEdit> {
    match edit
    case Some(e) => Some(WithTrackName(e, buffer))
    case None => None
  }

  /** `String::pop`: the last character removed, if any. */
  function Pop(s: string): string {
    if s == [] then s else s[..|s| - 1]
  }

  /** `handle_edit_keys`: the new state, and whether to quit. */
  function EditStep(s: AppState, key: KeyEvent): (AppState, bool) {
    match key.code
    case Char('q') => (s, true)
    case Esc => (s.(mode := BrowseTracks, editBuffer := "", currentEdit := None), false)
    case Enter => (s, false)
    case Backspace =>
      var buffer := Pop(s.editBuffer);
      (s.(editBuffer := buffer, currentEdit := MirrorBuffer(s.currentEdit, buffer)), false)
    case Char(c) =>
      if key.control then (s, c == 'c')
      else
        var buffer := s.editBuffer + [c];
        (s.(editBuffer := buffer, currentEdit := MirrorBuffer(s.currentEdit, buffer)), false)
    case _ => (s, false)
  }

  /** `handle_key_event`: keys are ignored while loading; an error gives way to browsing once there are tracks. */
  function KeyStep(s: AppState, key: KeyEvent): (AppState, bool) {
    match s.mode
    case BrowseTracks => BrowseStep(s, key)
    case EditTrack => EditStep(s, key)
    case Loading => (s, false)
    case Error(_) => (if s.tracks != [] then s.(mode := BrowseTracks) else s, false)
  }

  /** Every key keeps the selected row on the list and highlighted. */
  lemma KeyStepKeepsInv(s: AppState, key: KeyEvent)
    requires Inv(s)
    ensures Inv(KeyStep(s, key).0)
    ensures KeyStep(s, key).0.tracks == s.tracks
  {
  }

  /**
   * Quitting: 'q' quits while browsing or editing, Control+C quits while
   * editing, and nothing else quits.
   */
  lemma QuitKeys(s: AppState, key: KeyEvent)
    ensures KeyStep(s, key).1 <==>
      ((s.mode == BrowseTracks || s.mode == EditTrack) && key.code == Char('q'))
      || (s.mode == EditTrack && key.code == Char('c') && key.control)
  {
  }

  /** Up and Down move the selection by one, within the list, and change nothing else. */
  lemma MoveSelection(s: AppState, key: KeyEvent)
    requires Inv(s) && s.mode == BrowseTracks
    requires key.code in {Up, Down, Char('k'), Char('j')}
    ensures var t := KeyStep(s, key).0;
      t.(selectedTrackIndex := s.selectedTrackIndex, listSelection := s.listSelection) == s
      && (key.code in {Up, Char('k')} ==> t.selectedTrackIndex == if s.selectedTrackIndex > 0 then s.selectedTrackIndex - 1 else 0)
      && (key.code in {Down, Char('j')} ==>
            t.selectedTrackIndex == if s.selectedTrackIndex + 1 < |s.tracks| then s.selectedTrackIndex + 1 else s.selectedTrackIndex)
  {
  }

  /**
   * Editing the buffer: Backspace drops its last character, a plain
   * character is appended, and the edit being prepared is renamed to the
   * buffer; Esc returns to browsing with an empty buffer and no edit.
   */
  lemma EditKeys(s: AppState, key: KeyEvent)
    requires s.mode == EditTrack
    ensures var t := KeyStep(s, key).0;
      (key.code == Backspace ==>
         t.editBuffer == Pop(s.editBuffer) && (t.currentEdit.Some? <==> s.currentEdit.Some?)
         && (t.currentEdit.Some? ==> t.currentEdit.value.trackName == t.editBuffer))
      && (key.code.Char? && key.code.c != 'q' && !key.control ==>
            t.editBuffer == s.editBuffer + [key.code.c] && (t.currentEdit.Some? <==> s.currentEdit.Some?)
            && (t.currentEdit.Some? ==> t.currentEdit.value.trackName == t.editBuffer))
      && (key.code == Esc ==> t.mode == BrowseTracks && t.editBuffer == "" && t.currentEdit.None?)
      && (key.code != Esc ==> t.mode == EditTrack)
  {
  }

  /**
   * Loading ignores every key; an error returns to browsing exactly when
   * there are tracks; Enter or 'e' on a row waits for that track's edit
   * form, with its name in the buffer.
   */
  lemma ModeChanges(s: AppState, key: KeyEvent)
    ensures s.mode == Loading ==> KeyStep(s, key) == (s, false)
    ensures s.mode.Error? ==> KeyStep(s, key).0.mode == if s.tracks != [] then BrowseTracks else s.mode
    ensures s.mode == BrowseTracks && key.code in {Enter, Char('e')} && s.selectedTrackIndex < |s.tracks| ==>
      var t := KeyStep(s, key).0;
      t.mode == Loading && t.editBuffer == s.tracks[s.selectedTrackIndex].name
      && t.editField == s.tracks[s.selectedTrackIndex].name
  {
  }

  /**
   * The state after `load_tracks` fetched `fetched`, the first page of the
   * artist's tracks (`None` when there is none). A failed fetch leaves the
   * editor loading.
   */
  function LoadTracksState(s: AppState, fetched: Result<Option<Page<Track>>, LastFmError>): AppState {
    var loading := s.(mode := Loading, loadingMessage := "Loading tracks for " + s.artist + "...");
    match fetched
    case Err(_) => loading
    case Ok(page) => TracksLoaded(loading, page)
  }

  /** The tracks of a fetched first page (none when there was no page) shown, or the error that there are none. */
  function TracksLoaded(s: AppState, page: Option<Page<Track>>): AppState {
    var loaded :=
      if page.Some? then s.(tracks := page.value.items, hasMorePages := page.value.hasNextPage, page := page.value.pageNumber)
      else s.(tracks := [], hasMorePages := false, page := 1);
    if loaded.tracks == [] then loaded.(mode := Error("No tracks found for this artist"))
    else loaded.(mode := BrowseTracks, selectedTrackIndex := 0, listSelection := Some(0))
  }

  /**
   * `load_tracks` ends browsing from the first row when tracks were found,
   * in an error when none were, and loading when the fetch failed.
   */
  lemma LoadTracksOutcome(s: AppState, fetched: Result<Option<Page<Track>>, LastFmError>)
    requires Inv(s)
    ensures var t := LoadTracksState(s, fetched);
      Inv(t)
      && (fetched.Err? ==> t.mode == Loading && t.tracks == s.tracks)
      && (fetched.Ok? ==>
            (t.tracks == if fetched.value.Some? then fetched.value.value.items else [])
            && (t.mode == if t.tracks == [] then Error("No tracks found for this artist") else BrowseTracks)
            && (t.tracks != [] ==> t.selectedTrackIndex == 0))
  {
  }

  /** The state after `load_more_tracks` fetched `fetched`, the page after the current one. */
  function LoadMoreState(s: AppState, fetched: Result<Option<Page<Track>>, LastFmError>): AppState {
    if !s.hasMorePages then s
    else
      var loading := s.(mode := Loading, loadingMessage := "Loading more tracks (page " + Text.NatToString(s.page + 1) + ")...");
      match fetched
      case Err(_) => loading
      case Ok(None) => loading.(mode := BrowseTracks)
      case Ok(Some(p)) =>
        loading.(tracks := s.tracks + p.items, hasMorePages := p.hasNextPage, page := p.pageNumber, mode := BrowseTracks)
  }

  /** Loading more only ever appends, so the selected row stays on the list; with no more pages nothing happens. */
  lemma LoadMoreKeepsRows(s: AppState, fetched: Result<Option<Page<Track>>, LastFmError>)
    requires Inv(s) && s.tracks != []
    ensures var t := LoadMoreState(s, fetched);
      Inv(t) && s.tracks <= t.tracks && (!s.hasMorePages ==> t == s)
  {
  }

  /** What the legacy client's `edit_scrobble` answers: whether the edit took, and an optional message. */
  datatype SaveResponse = SaveResponse(success: bool, message: Option<string>)

  /**
   * The state after `load_edit_form` asked for the edit form of the selected
   * track and got `loaded`. With no row selected nothing happens.
   */
  function LoadEditFormState(s: AppState, loaded: Result<LegacyEdit, LastFmError>): AppState {
    if s.selectedTrackIndex >= |s.tracks| then s
    else
      match loaded
      case Ok(edit) =>
        s.(currentEdit := Some(edit), editBuffer := s.tracks[s.selectedTrackIndex].name, mode := EditTrack,
           statusMessage := "Editing track name. Press Enter to save, Esc to cancel.")
      case Err(e) => s.(mode := Error("Failed to load edit form: " + ErrorMessage(e)))
  }

  /**
   * A loaded form starts editing the selected track's name with the edit the
   * server gave; a failed load shows the error. The list is left alone.
   */
  lemma LoadEditFormOutcome(s: AppState, loaded: Result<LegacyEdit, LastFmError>)
    requires Inv(s)
    ensures var t := LoadEditFormState(s, loaded);
      Inv(t) && t.tracks == s.tracks && t.selectedTrackIndex == s.selectedTrackIndex
      && (s.selectedTrackIndex < |s.tracks| && loaded.Ok? ==>
            t.mode == EditTrack && t.currentEdit == Some(loaded.value)
            && t.editBuffer == s.tracks[s.selectedTrackIndex].name)
      && (s.selectedTrackIndex < |s.tracks| && loaded.Err? ==>
            t.mode == Error("Failed to load edit form: " + ErrorMessage(loaded.error)) && t.currentEdit == s.currentEdit)
      && (s.selectedTrackIndex >= |s.tracks| ==> t == s)
  {
  }

  /** The status line after a save answered `response`. */
  function SaveStatus(edit: LegacyEdit, response: Result<SaveResponse, LastFmError>): string {
    match response
    case Ok(resp) =>
      if resp.success then "\U{2705} Successfully edited '" + edit.trackNameOriginal + "' to '" + edit.trackName + "'"
      else "\U{274C} Edit failed: " + resp.message.UnwrapOr("Unknown error")
    case Err(e) => "\U{274C} Edit error: " + ErrorMessage(e)
  }

  /**
   * The state after `save_edit` submitted the edit being prepared and got
   * `response`: a successful save renames the selected row; in every case the
   * editor returns to browsing with the edit dropped and the buffer cleared.
   */
  function SaveEditState(s: AppState, response: Result<SaveResponse, LastFmError>): AppState {
    match s.currentEdit
    case None => s
    case Some(edit) =>
      var renamed :=
        if response.Ok? && response.value.success && s.selectedTrackIndex < |s.tracks|
        then s.tracks[s.selectedTrackIndex := s.tracks[s.selectedTrackIndex].(name := edit.trackName)]
        else s.tracks;
      s.(loadingMessage := "Saving edit: '" + edit.trackNameOriginal + "' -> '" + edit.trackName + "'...",
         statusMessage := SaveStatus(edit, response), tracks := renamed,
         mode := BrowseTracks, currentEdit := None, editBuffer := "")
  }

  /**
   * Saving keeps the list's length and every row but the selected one; the
   * selected row takes the edit's new name exactly when the server accepted
   * the edit. Afterwards the editor browses again, with no edit pending.
   */
  lemma SaveEditOutcome(s: AppState, response: Result<SaveResponse, LastFmError>)
    requires Inv(s)
    ensures var t := SaveEditState(s, response);
      Inv(t) && |t.tracks| == |s.tracks| && t.selectedTrackIndex == s.selectedTrackIndex
      && (s.currentEdit.None? ==> t == s)
      && (s.currentEdit.Some? ==>
            t.mode == BrowseTracks && t.currentEdit.None? && t.editBuffer == ""
            && (forall i :: 0 <= i < |s.tracks| && i != s.selectedTrackIndex ==> t.tracks[i] == s.tracks[i])
            && (s.selectedTrackIndex < |s.tracks| ==>
                  (t.tracks[s.selectedTrackIndex].name == s.currentEdit.value.trackName
                     || t.tracks[s.selectedTrackIndex] == s.tracks[s.selectedTrackIndex])
                  && (response.Ok? && response.value.success ==>
                        t.tracks[s.selectedTrackIndex] == s.tracks[s.selectedTrackIndex].(name := s.currentEdit.value.trackName))
                  && (!(response.Ok? && response.value.success) ==> t.tracks == s.tracks)))
  {
  }

  /** The editor itself. */
  class TrackEditorApp {
    var artist: string
    var tracks: seq<Track>
    var selectedTrackIndex: nat
    var mode: AppMode
    var listSelection: Option<nat>
    var editField: string
    var editBuffer: string
    var loadingMessage: string
    var statusMessage: string
    var currentEdit: Option<LegacyEdit>
    var page: nat
    var hasMorePages: bool

    function State(): AppState
      reads this
    {
      AppState(artist, tracks, selectedTrackIndex, mode, listSelection, editField, editBuffer,
               loadingMessage, statusMessage, currentEdit, page, hasMorePages)
    }

    predicate Valid()
      reads this
    {
      Inv(State())
    }

    /** `new`: loading, on page 1, first row selected, more pages expected. */
    constructor (artist: string)
      ensures State() == Initial(artist) && Valid()
    {
      this.artist := artist;
      tracks := [];
      selectedTrackIndex := 0;
      mode := Loading;
      listSelection := Some(0);
      editField := "";
      editBuffer := "";
      loadingMessage := "Loading tracks...";
      statusMessage := "";
      currentEdit := None;
      page := 1;
      hasMorePages := true;
    }

    /** `handle_key_event`: true when the editor should quit. */
    method HandleKeyEvent(key: KeyEvent) returns (quit: bool)
      requires Valid()
      modifies this
      ensures (State(), quit) == KeyStep(old(State()), key)
      ensures Valid()
    {
      KeyStepKeepsInv(State(), key);
      match mode {
        case BrowseTracks =>
          quit := HandleBrowseKeys(key);
        case EditTrack =>
          quit := HandleEditKeys(key);
        case Loading =>
          quit := false;
        case Error(_) =>
          if tracks != [] {
            mode := BrowseTracks;
          }
          quit := false;
      }
    }

    method HandleBrowseKeys(key: KeyEvent) returns (quit: bool)
      modifies this
      ensures (State(), quit) == BrowseStep(old(State()), key)
    {
      quit := false;
      match key.code {
        case Char(c) =>
          if c == 'q' {
            return true;
          } else if c == 'k' {
            MoveUp();
          } else if c == 'j' {
            MoveDown();
          } else if c == 'e' {
            EditSelected();
          }
        case Up => MoveUp();
        case Down => MoveDown();
        case Enter => EditSelected();
        case _ =>
      }
    }

    method MoveUp()
      modifies this
      ensures State() == if old(selectedTrackIndex) > 0
        then old(State()).(selectedTrackIndex := old(selectedTrackIndex) - 1, listSelection := Some(old(selectedTrackIndex) - 1))
        else old(State())
    {
      if selectedTrackIndex > 0 {
        selectedTrackIndex := selectedTrackIndex - 1;
        listSelection := Some(selectedTrackIndex);
      }
    }

    method MoveDown()
      modifies this
      ensures State() == if old(selectedTrackIndex) < LastIndex(|old(tracks)|)
        then old(State()).(selectedTrackIndex := old(selectedTrackIndex) + 1, listSelection := Some(old(selectedTrackIndex) + 1))
        else old(State())
    {
      if selectedTrackIndex < LastIndex(|tracks|) {
        selectedTrackIndex := selectedTrackIndex + 1;
        listSelection := Some(selectedTrackIndex);
      }
    }

    method EditSelected()
      modifies this
      ensures State() == if old(selectedTrackIndex) < |old(tracks)|
        then StartEdit(old(State()), old(tracks)[old(selectedTrackIndex)])
        else old(State())
    {
      if selectedTrackIndex < |tracks| {
        StartEditMode(tracks[selectedTrackIndex]);
      }
    }

    /** `start_edit_mode`. */
    method StartEditMode(track: Track)
      modifies this
      ensures State() == StartEdit(old(State()), track)
    {
      mode := Loading;
      loadingMessage := "Loading edit form for '" + track.name + "'...";
      editBuffer := track.name;
      editField := track.name;
    }

    method HandleEditKeys(key: KeyEvent) returns (quit: bool)
      modifies this
      ensures (State(), quit) == EditStep(old(State()), key)
    {
      quit := false;
      match key.code {
        case Char(c) =>
          if c == 'q' {
            return true;
          }
          if key.control {
            quit := c == 'c';
          } else {
            editBuffer := editBuffer + [c];
            if currentEdit.Some? {
              currentEdit := Some(currentEdit.value.(trackName := editBuffer));
            }
          }
        case Esc =>
          mode := BrowseTracks;
          editBuffer := "";
          currentEdit := None;
        case Backspace =>
          if editBuffer != [] {
            editBuffer := editBuffer[..|editBuffer| - 1];
          }
          if currentEdit.Some? {
            currentEdit := Some(currentEdit.value.(trackName := editBuffer));
          }
        case _ =>
      }
    }

    /** The part of `load_tracks` after the first page was fetched (`fetched`). */
    method LoadTracks(fetched: Result<Option<Page<Track>>, LastFmError>) returns (r: Result<(), LastFmError>)
      modifies this
      ensures State() == LoadTracksState(old(State()), fetched)
      ensures r.Err? <==> fetched.Err?
    {
      mode := Loading;
      loadingMessage := "Loading tracks for " + artist + "...";
      if fetched.Err? {
        return Err(fetched.error);
      }
      ShowTracks(fetched.value);
      r := Ok(());
    }

    /** The end of `load_tracks` once the first page came back: its tracks shown, or the error that there are none. */
    method ShowTracks(fetched: Option<Page<Track>>)
      modifies this
      ensures State() == TracksLoaded(old(State()), fetched)
    {
      if fetched.Some? {
        tracks := fetched.value.items;
        hasMorePages := fetched.value.hasNextPage;
        page := fetched.value.pageNumber;
      } else {
        tracks := [];
        hasMorePages := false;
        page := 1;
      }
      ghost var loaded := State();
      assert loaded == if fetched.Some? then old(State()).(tracks := tracks, hasMorePages := hasMorePages, page := page)
                       else old(State()).(tracks := [], hasMorePages := false, page := 1);
      if tracks == [] {
        mode := Error("No tracks found for this artist");
        assert State() == loaded.(mode := Error("No tracks found for this artist"));
      } else {
        mode := BrowseTracks;
        selectedTrackIndex := 0;
        listSelection := Some(0);
        assert State() == loaded.(mode := BrowseTracks, selectedTrackIndex := 0, listSelection := Some(0));
      }
    }

    /** The part of `load_more_tracks` after the next page was fetched (`fetched`). */
    method LoadMoreTracks(fetched: Result<Option<Page<Track>>, LastFmError>) returns (r: Result<(), LastFmError>)
      modifies this
      ensures State() == LoadMoreState(old(State()), fetched)
      ensures r.Err? <==> old(hasMorePages) && fetched.Err?
    {
      if !hasMorePages {
        return Ok(());
      }
      mode := Loading;
      loadingMessage := "Loading more tracks (page " + Text.NatToString(page + 1) + ")...";
      if fetched.Err? {
        return Err(fetched.error);
      }
      if fetched.value.Some? {
        tracks := tracks + fetched.value.value.items;
        hasMorePages := fetched.value.value.hasNextPage;
        page := fetched.value.value.pageNumber;
      }
      mode := BrowseTracks;
      r := Ok(());
    }

    /** `load_edit_form`, once the form of the selected track was asked for and `loaded` came back. */
    method LoadEditForm(loaded: Result<LegacyEdit, LastFmError>) returns (r: Result<(), LastFmError>)
      modifies this
      ensures State() == LoadEditFormState(old(State()), loaded)
      ensures r.Ok?
    {
      if selectedTrackIndex < |tracks| {
        var track := tracks[selectedTrackIndex];
        ghost var before := State();
        match loaded {
          case Ok(edit) =>
            currentEdit := Some(edit);
            editBuffer := track.name;
            mode := EditTrack;
            statusMessage := "Editing track name. Press Enter to save, Esc to cancel.";
            assert State() == before.(currentEdit := Some(edit), editBuffer := track.name, mode := EditTrack,
                                      statusMessage := "Editing track name. Press Enter to save, Esc to cancel.")
                   == LoadEditFormState(before, loaded);
          case Err(e) =>
            var message := "Failed to load edit form: " + ErrorMessage(e);
            mode := Error(message);
            assert State() == before.(mode := Error(message)) == LoadEditFormState(before, loaded);
        }
      }
      r := Ok(());
    }

    /** `save_edit`, once the edit being prepared was submitted and `response` came back. */
    method SaveEdit(response: Result<SaveResponse, LastFmError>) returns (r: Result<(), LastFmError>)
      modifies this
      ensures State() == SaveEditState(old(State()), response)
      ensures r.Ok?
    {
      if currentEdit.Some? {
        var edit := currentEdit.value;
        mode := Loading;
        loadingMessage := "Saving edit: '" + edit.trackNameOriginal + "' -> '" + edit.trackName + "'...";
        match response {
          case Ok(resp) =>
            if resp.success {
              statusMessage := "\U{2705} Successfully edited '" + edit.trackNameOriginal + "' to '" + edit.trackName + "'";
              if selectedTrackIndex < |tracks| {
                tracks := tracks[selectedTrackIndex := tracks[selectedTrackIndex].(name := edit.trackName)];
              }
            } else {
              statusMessage := "\U{274C} Edit failed: " + resp.message.UnwrapOr("Unknown error");
            }
          case Err(e) =>
            statusMessage := "\U{274C} Edit error: " + ErrorMessage(e);
        }
        mode := BrowseTracks;
        currentEdit := None;
        editBuffer := "";
      }
      r := Ok(());
    }
  }
}
