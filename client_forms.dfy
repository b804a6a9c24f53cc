/**
 * Loading the edit-form values of a track: the scrobble forms on the
 * track's library pages, one exact edit per album variation, over at most
 * five pages; and the search of recent scrobbles for one track.
 */
module EditForms {
  import opened Wrappers
  import opened Text
  import opened LastFmTypes
  import opened Consumption
  import opened RecentSearch

  /** The input values of one scrobble-edit form, as the page gives them. */
  datatype EditForm = EditForm(
    trackName: Option<string>,
    artistName: Option<string>,
    albumName: Option<string>,
    albumArtistName: Option<string>,
    timestamp: Option<string>)

  /** A row of the scrobble table: an aggregated count-bar row, or a row with or without an edit form. */
  datatype Row = Row(hasCountBar: bool, form: Option<EditForm>)

  /** A track page: its scrobble table (if present) and whether a next-page link is shown. */
  datatype TrackPageDoc = TrackPageDoc(table: Option<seq<Row>>, hasNextPage: bool)

  /** An album variation: album and album artist. */
  type AlbumKey = (string, string)

  function KeyOf(e: ExactScrobbleEdit): AlbumKey {
    (e.albumNameOriginal, e.albumArtistNameOriginal)
  }

  /** The form's fields with their defaults: the album artist falls back to the artist. */
  function FormTrack(f: EditForm): string { f.trackName.UnwrapOr("") }
  function FormArtist(f: EditForm): string { f.artistName.UnwrapOr("") }
  function FormAlbum(f: EditForm): string { f.albumName.UnwrapOr("") }
  function FormAlbumArtist(f: EditForm): string { f.albumArtistName.UnwrapOr(FormArtist(f)) }

  /** The form's timestamp: absent or empty is none, otherwise a `u64` parse. */
  function FormTimestamp(f: EditForm): Option<nat> {
    var t := f.timestamp.UnwrapOr("");
    if t == "" then None else ParseU64(t)
  }

  /** The exact edit a form stands for: new values equal to the originals, applied to all scrobbles. */
  function FormEdit(f: EditForm, timestamp: nat): ExactScrobbleEdit {
    ExactScrobbleEdit(FormTrack(f), FormAlbum(f), FormArtist(f), FormAlbumArtist(f),
                      FormTrack(f), FormAlbum(f), FormArtist(f), FormAlbumArtist(f), timestamp, true)
  }

  /** The edits found so far and the album variations seen so far. */
  datatype Extracted = Extracted(edits: seq<ExactScrobbleEdit>, seen: set<AlbumKey>)

  /**
   * One row: a count-bar row or a row without a form gives nothing; a form
   * for another track or artist gives nothing; a form of an album variation
   * already seen gives nothing; otherwise the variation is marked as seen and
   * gives an edit if its timestamp parses.
   */
  function ExtractRow(row: Row, track: string, artist: string, seen: set<AlbumKey>): Extracted {
    if row.hasCountBar || row.form.None? then Extracted([], seen)
    else
      var f := row.form.value;
      if FormTrack(f) != track || FormArtist(f) != artist then Extracted([], seen)
      else
        var key := (FormAlbum(f), FormAlbumArtist(f));
        if key in seen then Extracted([], seen)
        else
          match FormTimestamp(f)
          case None => Extracted([], seen + {key})
          case Some(ts) => Extracted([FormEdit(f, ts)], seen + {key})
  }

  /** The rows in order, with the seen variations carried from row to row. */
  function ExtractRows(rows: seq<Row>, track: string, artist: string, seen: set<AlbumKey>): Extracted
    decreases |rows|
  {
    if rows == [] then Extracted([], seen)
    else
      var first := ExtractRow(rows[0], track, artist, seen);
      var rest := ExtractRows(rows[1..], track, artist, first.seen);
      Extracted(first.edits + rest.edits, rest.seen)
  }

  /** What a page gives: its edits and the new seen set, or a parse error when it has no scrobble table. */
  function ExtractPage(doc: TrackPageDoc, track: string, artist: string, seen: set<AlbumKey>): Result<Extracted, LastFmError> {
    match doc.table
    case None => Err(Parse("No chartlist table found on track page"))
    case Some(rows) => Ok(ExtractRows(rows, track, artist, seen))
  }

  /** `edits` found before, followed by what the rest gives. */
  function After(edits: seq<ExactScrobbleEdit>, x: Extracted): Extracted {
    Extracted(edits + x.edits, x.seen)
  }

  lemma AfterAfter(a: seq<ExactScrobbleEdit>, b: seq<ExactScrobbleEdit>, x: Extracted)
    ensures After(a, After(b, x)) == After(a + b, x)
  {
    assert a + (b + x.edits) == (a + b) + x.edits;
  }

  /** The body of the row loop: one row's edit, if any, and the seen set after it. */
  method TakeRow(row: Row, track: string, artist: string, seen0: set<AlbumKey>)
    returns (edits: seq<ExactScrobbleEdit>, seen: set<AlbumKey>)
    ensures Extracted(edits, seen) == ExtractRow(row, track, artist, seen0)
  {
    edits, seen := [], seen0;
    if row.hasCountBar || row.form.None? {
      return;
    }
    var f := row.form.value;
    if FormTrack(f) == track && FormArtist(f) == artist {
      var key := (FormAlbum(f), FormAlbumArtist(f));
      if key !in seen {
        seen := seen + {key};
        var timestamp := FormTimestamp(f);
        if timestamp.Some? {
          edits := [FormEdit(f, timestamp.value)];
        }
      }
    }
  }

  /**
   * `extract_scrobble_edits_from_page`: the loop over the table's rows,
   * pushing edits and inserting into the shared set of seen variations.
   */
  method ExtractScrobbleEditsFromPage(doc: TrackPageDoc, track: string, artist: string, seen0: set<AlbumKey>)
    returns (r: Result<seq<ExactScrobbleEdit>, LastFmError>, seen: set<AlbumKey>)
    ensures doc.table.None? ==> r == Err(Parse("No chartlist table found on track page")) && seen == seen0
    ensures doc.table.Some? ==> r == Ok(ExtractPage(doc, track, artist, seen0).value.edits)
                                && seen == ExtractPage(doc, track, artist, seen0).value.seen
  {
    seen := seen0;
    if doc.table.None? {
      return Err(Parse("No chartlist table found on track page")), seen;
    }
    var rows := doc.table.value;
    var edits: seq<ExactScrobbleEdit> := [];
    for i := 0 to |rows|
      invariant ExtractRows(rows, track, artist, seen0) == After(edits, ExtractRows(rows[i..], track, artist, seen))
    {
      assert rows[i..][1..] == rows[i + 1..];
      var found, seen' := TakeRow(rows[i], track, artist, seen);
      AfterAfter(edits, found, ExtractRows(rows[i + 1..], track, artist, seen'));
      edits := edits + found;
      seen := seen';
    }
    assert rows[|rows|..] == [];
    assert edits + [] == edits;
    r := Ok(edits);
  }

  /** The edits' variations are distinct and none was seen before. */
  predicate FreshKeys(edits: seq<ExactScrobbleEdit>, seen: set<AlbumKey>) {
    (forall i :: 0 <= i < |edits| ==> KeyOf(edits[i]) !in seen)
    && (forall i, j :: 0 <= i < j < |edits| ==> KeyOf(edits[i]) != KeyOf(edits[j]))
  }

  /** Fresh edits followed by edits fresh with respect to a seen set holding the first ones' variations. */
  lemma FreshKeysAppend(a: seq<ExactScrobbleEdit>, b: seq<ExactScrobbleEdit>, seen: set<AlbumKey>, mid: set<AlbumKey>)
    requires FreshKeys(a, seen) && FreshKeys(b, mid) && seen <= mid
    requires forall e :: e in a ==> KeyOf(e) in mid
    ensures FreshKeys(a + b, seen)
  {
    var all := a + b;
    forall i, j | 0 <= i < j < |all| ensures KeyOf(all[i]) != KeyOf(all[j]) {
      if i < |a| && j >= |a| {
        assert all[i] in a;
        assert all[j] == b[j - |a|];
      }
    }
    forall i | 0 <= i < |all| ensures KeyOf(all[i]) !in seen {
      if i >= |a| {
        assert all[i] == b[i - |a|];
      }
    }
  }

  /** An edit found for the expected track and artist, with its new values equal to its originals, for all scrobbles. */
  predicate FoundFor(e: ExactScrobbleEdit, track: string, artist: string) {
    e.trackNameOriginal == track && e.artistNameOriginal == artist
    && e.trackName == e.trackNameOriginal && e.albumName == e.albumNameOriginal
    && e.artistName == e.artistNameOriginal && e.albumArtistName == e.albumArtistNameOriginal
    && e.editAll
  }

  /**
   * Extraction from rows: every edit is for the expected track and artist,
   * variations are never repeated nor taken from the seen set, the seen set
   * only grows, and every edit's variation is added to it.
   */
  lemma {:induction false} ExtractRowsFacts(rows: seq<Row>, track: string, artist: string, seen: set<AlbumKey>)
    ensures var x := ExtractRows(rows, track, artist, seen);
      (forall e :: e in x.edits ==> FoundFor(e, track, artist) && KeyOf(e) in x.seen)
      && FreshKeys(x.edits, seen)
      && seen <= x.seen
    decreases |rows|
  {
    if rows != [] {
      var first := ExtractRow(rows[0], track, artist, seen);
      ExtractRowsFacts(rows[1..], track, artist, first.seen);
      var rest := ExtractRows(rows[1..], track, artist, first.seen);
      FreshKeysAppend(first.edits, rest.edits, seen, first.seen);
    }
  }

  /**
   * A matching form's variation is marked as seen even when its timestamp
   * does not parse, so a later form of that variation is never used.
   */
  lemma VariationConsumedWithoutTimestamp(f: EditForm, track: string, artist: string, seen: set<AlbumKey>)
    requires FormTrack(f) == track && FormArtist(f) == artist
    requires FormTimestamp(f).None?
    ensures var x := ExtractRow(Row(false, Some(f)), track, artist, seen);
      x.edits == [] && (FormAlbum(f), FormAlbumArtist(f)) in x.seen
  {
  }

  /** The number of pages `load_edit_form_values_internal` looks at, at most. */
  const MaxFormPages: nat := 5

  /**
   * The edits from page `page` on, with the variations in `seen` already
   * taken; a page without a next-page link is the last one looked at.
   */
  function PagesFrom(fetch: nat -> Result<TrackPageDoc, LastFmError>, track: string, artist: string,
                     page: nat, seen: set<AlbumKey>): Result<seq<ExactScrobbleEdit>, LastFmError>
    decreases MaxFormPages + 1 - page
  {
    if page > MaxFormPages then Ok([])
    else
      match fetch(page)
      case Err(e) => Err(e)
      case Ok(doc) =>
        match ExtractPage(doc, track, artist, seen)
        case Err(e) => Err(e)
        case Ok(x) =>
          if !doc.hasNextPage then Ok(x.edits)
          else Prepend(x.edits, PagesFrom(fetch, track, artist, page + 1, x.seen))
  }

  function NoFormsMessage(track: string, artist: string): string {
    "No scrobble forms found for track '" + track + "' by '" + artist + "'"
  }

  /** The outcome of loading the form values: the edits of all pages, or an error when there are none. */
  function FormValues(fetch: nat -> Result<TrackPageDoc, LastFmError>, track: string, artist: string)
    : Result<seq<ExactScrobbleEdit>, LastFmError>
  {
    match PagesFrom(fetch, track, artist, 1, {})
    case Err(e) => Err(e)
    case Ok(all) => if all == [] then Err(Parse(NoFormsMessage(track, artist))) else Ok(all)
  }

  /**
   * `load_edit_form_values_internal`. `fetch(p)` is page `p` of the track's
   * library pages (the first without redirects), or the error of getting it.
   */
  method LoadEditFormValues(fetch: nat -> Result<TrackPageDoc, LastFmError>, track: string, artist: string)
    returns (r: Result<seq<ExactScrobbleEdit>, LastFmError>)
    ensures r == FormValues(fetch, track, artist)
  {
    var first := fetch(1);
    if first.Err? {
      return Err(first.error);
    }
    var doc := first.value;
    var edits, seen := ExtractScrobbleEditsFromPage(doc, track, artist, {});
    if edits.Err? {
      return Err(edits.error);
    }
    var all := edits.value;
    var hasNextPage := doc.hasNextPage;
    var page := 2;
    while hasNextPage && page <= MaxFormPages
      invariant 2 <= page <= MaxFormPages + 1
      invariant hasNextPage ==> PagesFrom(fetch, track, artist, 1, {}) == Prepend(all, PagesFrom(fetch, track, artist, page, seen))
      invariant !hasNextPage ==> PagesFrom(fetch, track, artist, 1, {}) == Ok(all)
      decreases MaxFormPages + 1 - page
    {
      var next := fetch(page);
      if next.Err? {
        r := FormValuesOfError(fetch, track, artist, all, next.error);
        return;
      }
      doc := next.value;
      var pageEdits, seen' := ExtractScrobbleEditsFromPage(doc, track, artist, seen);
      if pageEdits.Err? {
        r := FormValuesOfError(fetch, track, artist, all, pageEdits.error);
        return;
      }
      PrependTwice(all, pageEdits.value, PagesFrom(fetch, track, artist, page + 1, seen'));
      all := all + pageEdits.value;
      seen := seen';
      hasNextPage := doc.hasNextPage;
      page := page + 1;
    }
    if hasNextPage {
      assert PagesFrom(fetch, track, artist, page, seen) == Ok([]);
      assert all + [] == all;
    }
    if all == [] {
      return Err(Parse(NoFormsMessage(track, artist)));
    }
    r := Ok(all);
  }

  /** An error met on a later page is the outcome of the whole load. */
  method FormValuesOfError(fetch: nat -> Result<TrackPageDoc, LastFmError>, track: string, artist: string,
                           all: seq<ExactScrobbleEdit>, e: LastFmError)
    returns (r: Result<seq<ExactScrobbleEdit>, LastFmError>)
    requires PagesFrom(fetch, track, artist, 1, {}) == Prepend(all, Err(e))
    ensures r == FormValues(fetch, track, artist) && r == Err(e)
  {
    r := Err(e);
  }

  /**
   * Edits from pages carry fresh, distinct variations: no album variation is
   * returned twice, even across pages.
   */
  lemma {:induction false} PagesFromFacts(fetch: nat -> Result<TrackPageDoc, LastFmError>, track: string, artist: string,
                                          page: nat, seen: set<AlbumKey>)
    ensures var r := PagesFrom(fetch, track, artist, page, seen);
      r.Ok? ==> FreshKeys(r.value, seen) && forall e :: e in r.value ==> FoundFor(e, track, artist)
    decreases MaxFormPages + 1 - page
  {
    if page <= MaxFormPages && fetch(page).Ok? && fetch(page).value.table.Some? {
      var doc := fetch(page).value;
      var x := ExtractRows(doc.table.value, track, artist, seen);
      ExtractRowsFacts(doc.table.value, track, artist, seen);
      if doc.hasNextPage {
        PagesFromFacts(fetch, track, artist, page + 1, x.seen);
        var rest := PagesFrom(fetch, track, artist, page + 1, x.seen);
        if rest.Ok? {
          FreshKeysAppend(x.edits, rest.value, seen, x.seen);
        }
      }
    }
  }

  /**
   * Loaded form values are never empty, are all for the track and artist,
   * and never repeat an album variation.
   */
  lemma FormValuesFacts(fetch: nat -> Result<TrackPageDoc, LastFmError>, track: string, artist: string)
    ensures var r := FormValues(fetch, track, artist);
      r.Ok? ==> r.value != [] && FreshKeys(r.value, {}) && forall e :: e in r.value ==> FoundFor(e, track, artist)
  {
    PagesFromFacts(fetch, track, artist, 1, {});
  }

  /** Only pages 1 to 5 are ever looked at: two sites that agree on them give the same outcome. */
  lemma {:induction false} PagesFromBounded(fetch: nat -> Result<TrackPageDoc, LastFmError>,
                                            fetch': nat -> Result<TrackPageDoc, LastFmError>,
                                            track: string, artist: string, page: nat, seen: set<AlbumKey>)
    requires forall p :: 1 <= p <= MaxFormPages ==> fetch(p) == fetch'(p)
    requires page >= 1
    ensures PagesFrom(fetch, track, artist, page, seen) == PagesFrom(fetch', track, artist, page, seen)
    decreases MaxFormPages + 1 - page
  {
    if page <= MaxFormPages && fetch(page).Ok? {
      var doc := fetch(page).value;
      if doc.table.Some? && doc.hasNextPage {
        PagesFromBounded(fetch, fetch', track, artist, page + 1, ExtractRows(doc.table.value, track, artist, seen).seen);
      }
    }
  }

  lemma FormValuesBounded(fetch: nat -> Result<TrackPageDoc, LastFmError>,
                          fetch': nat -> Result<TrackPageDoc, LastFmError>, track: string, artist: string)
    requires forall p :: 1 <= p <= MaxFormPages ==> fetch(p) == fetch'(p)
    ensures FormValues(fetch, track, artist) == FormValues(fetch', track, artist)
  {
    PagesFromBounded(fetch, fetch', track, artist, 1, {});
  }

  /** A scrobble of `track` by `artist`. */
  predicate IsScrobbleOf(t: Track, track: string, artist: string) {
    t.name == track && t.artist == artist
  }

  /**
   * `find_recent_scrobble_for_track`: pages 1 to `max_pages` of recent
   * scrobbles, each scanned in order, the first scrobble of the track by the
   * artist returned at once. `recent(p)` is page `p` of the recent scrobbles.
   */
  method FindRecentScrobbleForTrack(recent: nat -> Result<seq<Track>, LastFmError>, track: string, artist: string,
                                    maxPages: nat)
    returns (r: Result<Option<Track>, LastFmError>)
    ensures r == SearchPages(recent, t => IsScrobbleOf(t, track, artist), 1, maxPages)
  {
    r := ScanPages(recent, t => IsScrobbleOf(t, track, artist), maxPages);
  }
}
