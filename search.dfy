/**
 * The `search` command: tracks or albums of the user's library matching a
 * query, starting at a given result and showing at most `limit` of them.
 * The offset is turned into a starting page and a number of results to
 * skip on it; results are then numbered from `offset + 1`.
 *
 * The search iterator is a parameter: `source(p)` is what the iterator
 * started at page `p` yields, in order, and whether the call after its last
 * item returns the end or an error.
 */
module SearchCommand {
  import opened Wrappers
  import opened LastFmTypes
  import opened Consumption

  /** Results per page of the library search. */
  const ItemsPerPage: nat := 30

  datatype SearchType = Tracks | Albums

  function TypeName(t: SearchType): string {
    match t
    case Tracks => "tracks"
    case Albums => "albums"
  }

  /** The page the iterator starts at. */
  function StartingPage(offset: nat, perPage: nat): nat
    requires perPage > 0
  {
    if offset > 0 then offset / perPage + 1 else 1
  }

  /** How many results of the starting page are skipped. */
  function WithinPageOffset(offset: nat, perPage: nat): nat
    requires perPage > 0
  {
    offset % perPage
  }

  /**
   * The starting page and the skip count locate result number `offset + 1`:
   * the pages before the starting one hold `(page - 1) * perPage` results and
   * the skip stays inside one page.
   */
  lemma PagePosition(offset: nat, perPage: nat)
    requires perPage > 0
    ensures StartingPage(offset, perPage) >= 1
    ensures (StartingPage(offset, perPage) - 1) * perPage + WithinPageOffset(offset, perPage) == offset
    ensures WithinPageOffset(offset, perPage) < perPage
  {
  }

  /**
   * How many items the loop takes from the iterator: with a limit it stops
   * right after showing the `limit`-th item; otherwise it takes them all.
   */
  function Taken(n: nat, within: nat, limit: nat): nat {
    if limit > 0 && n >= within + limit then within + limit else n
  }

  /** Whether the loop asks past the last item, and so sees the end or the error. */
  predicate ReadsToEnd(n: nat, within: nat, limit: nat) {
    !(limit > 0 && n >= within + limit)
  }

  /** The items shown: those taken, less the `within` skipped ones. */
  function Shown<T>(items: seq<T>, within: nat, limit: nat): (r: seq<T>)
    ensures |r| <= |items|
  {
    var t := Taken(|items|, within, limit);
    if t <= within then [] else items[within..t]
  }

  datatype SearchEvent<T> =
    | Started(searchType: string, query: string, offset: nat, limit: nat)
      /** `TrackFound` or `AlbumFound`. */
    | ItemFound(index: nat, item: T)
    | Summary(searchType: string, query: string, totalDisplayed: nat, offset: nat, limit: nat)
    | NoResults(searchType: string, query: string)
    | Finished(searchType: string, query: string)

  /** The events emitted, and the iterator error that ended the command early, if any. */
  datatype SearchRun<T> = SearchRun(events: seq<SearchEvent<T>>, error: Option<LastFmError>)

  /** One found event per shown item, numbered from `offset + 1`. */
  function FoundEvents<T>(shown: seq<T>, offset: nat): seq<SearchEvent<T>> {
    seq(|shown|, k requires 0 <= k < |shown| => ItemFound(offset + k + 1, shown[k]))
  }

  /** `handle_search_command`. */
  function Search<T>(searchType: SearchType, query: string, limit: nat, offset: nat,
                     source: nat -> Stream<T, LastFmError>): SearchRun<T>
  {
    var name := TypeName(searchType);
    var stream := source(StartingPage(offset, ItemsPerPage));
    var within := WithinPageOffset(offset, ItemsPerPage);
    var shown := Shown(stream.items, within, limit);
    var events := [Started(name, query, offset, limit)] + FoundEvents(shown, offset);
    if ReadsToEnd(|stream.items|, within, limit) && stream.error.Some? then SearchRun(events, stream.error)
    else
      var closing := if shown == [] then NoResults(name, query) else Summary(name, query, |shown|, offset, limit);
      SearchRun(events + [closing, Finished(name, query)], None)
  }

  /** `handle_search_command`: the loop over the iterator, then the closing events. */
  method HandleSearchCommand<T>(searchType: SearchType, query: string, limit: nat, offset: nat,
                                source: nat -> Stream<T, LastFmError>) returns (run: SearchRun<T>)
    ensures run == Search(searchType, query, limit, offset, source)
  {
    var name := TypeName(searchType);
    var startingPage := if offset > 0 then offset / ItemsPerPage + 1 else 1;
    var within := offset % ItemsPerPage;
    var stream := source(startingPage);
    var found, reachedLimit := ShowItems(stream.items, within, limit, offset);
    var events := [Started(name, query, offset, limit)] + found;
    if !reachedLimit && stream.error.Some? {
      return SearchRun(events, stream.error);
    }
    var displayed := |found|;
    var closing := if displayed == 0 then NoResults(name, query) else Summary(name, query, displayed, offset, limit);
    run := SearchRun(events + [closing, Finished(name, query)], None);
  }

  /**
   * The loop: skip `within` items, number the rest from `offset + 1`, and
   * stop once `limit` are shown when `limit > 0`. `reachedLimit` tells
   * whether the loop stopped there rather than at the iterator's end.
   */
  method ShowItems<T>(items: seq<T>, within: nat, limit: nat, offset: nat)
    returns (found: seq<SearchEvent<T>>, reachedLimit: bool)
    ensures found == FoundEvents(Shown(items, within, limit), offset)
    ensures reachedLimit <==> !ReadsToEnd(|items|, within, limit)
  {
    found := [];
    reachedLimit := false;
    var totalCount := 0;
    var displayed := 0;
    while totalCount < |items|
      invariant totalCount <= |items|
      invariant displayed == if totalCount <= within then 0 else totalCount - within
      invariant |found| == displayed
      invariant forall k :: 0 <= k < displayed ==> found[k] == ItemFound(offset + k + 1, items[within + k])
      invariant !(limit > 0 && displayed >= limit)
    {
      var item := items[totalCount];
      totalCount := totalCount + 1;
      if totalCount <= within {
        continue;
      }
      displayed := displayed + 1;
      found := found + [ItemFound(offset + displayed, item)];
      if limit > 0 && displayed >= limit {
        reachedLimit := true;
        break;
      }
    }
    ghost var shown := Shown(items, within, limit);
    assert |shown| == displayed;
    assert forall k :: 0 <= k < displayed ==> shown[k] == items[within + k];
  }

  // ---------------------------------------------------------------------------
  // Facts
  // ---------------------------------------------------------------------------

  /**
   * The command starts with `Started`; found items are numbered
   * consecutively from `offset + 1`; with a limit at most `limit` are shown.
   * Unless an iterator error ends it, it closes with `NoResults` exactly
   * when nothing was shown, else a `Summary` counting the shown items, and
   * `Finished` comes last.
   */
  lemma SearchFacts<T>(searchType: SearchType, query: string, limit: nat, offset: nat, source: nat -> Stream<T, LastFmError>)
    ensures var r := Search(searchType, query, limit, offset, source);
      var name := TypeName(searchType);
      var shown := Shown(source(StartingPage(offset, ItemsPerPage)).items, WithinPageOffset(offset, ItemsPerPage), limit);
      && |r.events| >= 1 + |shown|
      && r.events[0] == Started(name, query, offset, limit)
      && (forall k :: 1 <= k <= |shown| ==> r.events[k] == ItemFound(offset + k, shown[k - 1]))
      && (limit > 0 ==> |shown| <= limit)
      && (r.error.None? ==>
            |r.events| == |shown| + 3
            && r.events[|r.events| - 1] == Finished(name, query)
            && (r.events[|r.events| - 2] == NoResults(name, query) <==> shown == [])
            && (shown != [] ==> r.events[|r.events| - 2] == Summary(name, query, |shown|, offset, limit)))
      && (r.error.Some? ==> |r.events| == 1 + |shown|)
  {
  }

  /** The results of a listing whose pages, from page 1, hold `ItemsPerPage` items each. */
  function FromPage<T>(all: seq<T>, page: nat): seq<T>
    requires page >= 1
  {
    var first := (page - 1) * ItemsPerPage;
    if first <= |all| then all[first..] else []
  }

  /**
   * Over a listing split into full pages, and with no iterator error, the
   * item shown with number `d` is the `d`-th result of the whole listing,
   * and the numbers run from `offset + 1` to the end of the listing or to
   * `offset + limit`.
   */
  lemma ShownAreListingFromOffset<T>(searchType: SearchType, query: string, limit: nat, offset: nat,
                                     all: seq<T>, source: nat -> Stream<T, LastFmError>)
    requires forall p :: p >= 1 ==> source(p) == Stream(FromPage(all, p), None)
    ensures var r := Search(searchType, query, limit, offset, source);
      var count := if offset >= |all| then 0
                   else if limit > 0 && |all| - offset > limit then limit
                   else |all| - offset;
      && r.error.None?
      && |r.events| == count + 3
      && forall k :: 1 <= k <= count ==> r.events[k] == ItemFound(offset + k, all[offset + k - 1])
  {
    var page := StartingPage(offset, ItemsPerPage);
    var within := WithinPageOffset(offset, ItemsPerPage);
    PagePosition(offset, ItemsPerPage);
    var first := (page - 1) * ItemsPerPage;
    assert first + within == offset;
    var items := FromPage(all, page);
    var shown := Shown(items, within, limit);
    if first <= |all| {
      assert |items| == |all| - first;
      forall k | 0 <= k < |shown| ensures shown[k] == all[offset + k] {
        assert shown[k] == items[within + k];
      }
    }
    SearchFacts(searchType, query, limit, offset, source);
  }
}
