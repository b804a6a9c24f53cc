/**
 * Searching the user's recent scrobbles page by page: the page view of a
 * list of recent scrobbles, and the first scrobble on pages `1..=n` that
 * satisfies a test, scanned in page order and in order within a page.
 */
module RecentSearch {
  import opened Wrappers
  import opened LastFmTypes

  /**
   * `get_recent_tracks_page`: the scrobbles of page `page` as a page, which
   * claims a next page exactly when it is not empty and never knows its
   * total.
   */
  function RecentTracksPage(scrobbles: Result<seq<Track>, LastFmError>, page: nat): (r: Result<Page<Track>, LastFmError>)
    ensures scrobbles.Err? ==> r == Err(scrobbles.error)
    ensures scrobbles.Ok? ==> r.Ok? && r.value.items == scrobbles.value && r.value.pageNumber == page
                              && (r.value.hasNextPage <==> scrobbles.value != []) && r.value.totalPages.None?
  {
    match scrobbles
    case Err(e) => Err(e)
    case Ok(tracks) => Ok(Page(tracks, page, |tracks| > 0, None))
  }

  /** The first scrobble of a page that passes `test`, in page order. */
  function FirstWhere(scrobbles: seq<Track>, test: Track -> bool): (r: Option<Track>)
    ensures r.Some? ==> r.value in scrobbles && test(r.value)
    ensures r.None? <==> forall t :: t in scrobbles ==> !test(t)
  {
    if scrobbles == [] then None
    else if test(scrobbles[0]) then Some(scrobbles[0])
    else FirstWhere(scrobbles[1..], test)
  }

  /**
   * The first scrobble passing `test` on pages `page..=maxPages`; a page
   * that cannot be fetched ends the search with its error. `recent(p)` is
   * page `p` of the recent scrobbles.
   */
  function SearchPages(recent: nat -> Result<seq<Track>, LastFmError>, test: Track -> bool,
                       page: nat, maxPages: nat): Result<Option<Track>, LastFmError>
    decreases maxPages + 1 - page
  {
    if page > maxPages then Ok(None)
    else
      match recent(page)
      case Err(e) => Err(e)
      case Ok(scrobbles) =>
        match FirstWhere(scrobbles, test)
        case Some(t) => Ok(Some(t))
        case None => SearchPages(recent, test, page + 1, maxPages)
  }

  /**
   * A found scrobble is the first match: it is the first match of some page
   * `p` within the bound, and every earlier page was fetched and holds no
   * match. `None` means every page within the bound was fetched and holds
   * none.
   */
  lemma {:induction false} SearchPagesFacts(recent: nat -> Result<seq<Track>, LastFmError>, test: Track -> bool,
                                            page: nat, maxPages: nat)
    ensures var r := SearchPages(recent, test, page, maxPages);
      (r.Ok? && r.value.Some? ==>
         test(r.value.value)
         && exists p :: page <= p <= maxPages && recent(p).Ok? && FirstWhere(recent(p).value, test) == r.value
                        && forall q :: page <= q < p ==> recent(q).Ok? && FirstWhere(recent(q).value, test).None?)
      && (r == Ok(None) ==>
            forall q :: page <= q <= maxPages ==> recent(q).Ok? && FirstWhere(recent(q).value, test).None?)
    decreases maxPages + 1 - page
  {
    if page <= maxPages && recent(page).Ok? && FirstWhere(recent(page).value, test).None? {
      SearchPagesFacts(recent, test, page + 1, maxPages);
      var r := SearchPages(recent, test, page, maxPages);
      if r.Ok? && r.value.Some? {
        var p :| page + 1 <= p <= maxPages && recent(p).Ok? && FirstWhere(recent(p).value, test) == r.value
                 && forall q :: page + 1 <= q < p ==> recent(q).Ok? && FirstWhere(recent(q).value, test).None?;
        assert forall q :: page <= q < p ==> recent(q).Ok? && FirstWhere(recent(q).value, test).None?;
      }
    }
  }

  /**
   * The scan both source searches perform: pages `1..=maxPages` in order,
   * each page's scrobbles in order, returning at the first match.
   */
  method ScanPages(recent: nat -> Result<seq<Track>, LastFmError>, test: Track -> bool, maxPages: nat)
    returns (r: Result<Option<Track>, LastFmError>)
    ensures r == SearchPages(recent, test, 1, maxPages)
  {
    var page := 1;
    while page <= maxPages
      invariant 1 <= page
      invariant SearchPages(recent, test, 1, maxPages) == SearchPages(recent, test, page, maxPages)
      decreases maxPages + 1 - page
    {
      var scrobbles := recent(page);
      if scrobbles.Err? {
        return Err(scrobbles.error);
      }
      var i := 0;
      while i < |scrobbles.value|
        invariant 0 <= i <= |scrobbles.value|
        invariant FirstWhere(scrobbles.value, test) == FirstWhere(scrobbles.value[i..], test)
      {
        var scrobble := scrobbles.value[i];
        assert scrobbles.value[i..][1..] == scrobbles.value[i + 1..];
        if test(scrobble) {
          return Ok(Some(scrobble));
        }
        i := i + 1;
      }
      page := page + 1;
    }
    r := Ok(None);
  }
}
