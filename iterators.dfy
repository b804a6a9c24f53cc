/**
 * The client's paginated iterators: a page is fetched when the buffer is
 * empty, its items are reversed into the buffer and popped one at a time, so
 * that they come out in page order.
 *
 * A listing is given as the finite sequence of outcomes of fetching its pages
 * 1, 2, ...; asking for a page past the end yields an empty last page. The
 * same fetch outcome is seen however often a page is asked for.
 */
module Iterators {
  import opened Wrappers
  import opened LastFmTypes
  import Consumption

  /** The outcome of fetching page `p` (counted from 1) of a listing. */
  function Fetch<T>(source: seq<Result<Page<T>, LastFmError>>, p: nat): Result<Page<T>, LastFmError> {
    if 1 <= p <= |source| then source[p - 1] else Ok(Page([], p, false, None))
  }

  /** `Vec::reverse`. */
  function Reversed<T>(s: seq<T>): (r: seq<T>)
    ensures |r| == |s| && forall i :: 0 <= i < |s| ==> r[i] == s[|s| - 1 - i]
  {
    seq(|s|, i requires 0 <= i < |s| => s[|s| - 1 - i])
  }

  /**
   * Reversing a page into the buffer and popping from its end yields the
   * page's first item first, and leaves the rest of the page, in order.
   */
  lemma ReversedPop<T>(items: seq<T>)
    requires |items| > 0
    ensures var b := Reversed(items); b[|b| - 1] == items[0] && Reversed(b[..|b| - 1]) == items[1..]
  {
  }

  // ---------------------------------------------------------------------------
  // Termination measure: how much work a listing can still produce
  // ---------------------------------------------------------------------------

  /** Each item counts one plus its weight `w` (the work it leads to downstream). */
  function Weight<T>(s: seq<T>, w: T -> nat): nat {
    if |s| == 0 then 0 else Weight(s[..|s| - 1], w) + 1 + w(s[|s| - 1])
  }

  lemma {:induction false} WeightFront<T>(s: seq<T>, w: T -> nat)
    requires |s| > 0
    ensures Weight(s, w) == 1 + w(s[0]) + Weight(s[1..], w)
    decreases |s|
  {
    if |s| > 1 {
      WeightFront(s[..|s| - 1], w);
      assert s[..|s| - 1][1..] == s[1..][..|s[1..]| - 1];
    }
  }

  /** Reversing does not change the weight. */
  lemma {:induction false} WeightReversed<T>(s: seq<T>, w: T -> nat)
    ensures Weight(Reversed(s), w) == Weight(s, w)
    decreases |s|
  {
    if |s| > 0 {
      var r := Reversed(s);
      assert r[..|r| - 1] == Reversed(s[1..]);
      WeightReversed(s[1..], w);
      WeightFront(s, w);
    }
  }

  /** The weight of the items of a fetch outcome; a failed fetch yields nothing. */
  function PageWeight<T>(fetched: Result<Page<T>, LastFmError>, w: T -> nat): nat {
    if fetched.Ok? then Weight(fetched.value.items, w) else 0
  }

  /** The work left in pages `p`, `p + 1`, ... of a listing: one per fetch plus its items. */
  function Rest<T>(source: seq<Result<Page<T>, LastFmError>>, p: nat, w: T -> nat): (n: nat)
    ensures n >= 1
    decreases if p > |source| then 0 else |source| + 1 - p
  {
    if p > |source| then 1 else 1 + PageWeight(Fetch(source, p), w) + Rest(source, p + 1, w)
  }

  /** A successful fetch leaves less work than there was before it. */
  lemma FetchShrinks<T>(source: seq<Result<Page<T>, LastFmError>>, p: nat, w: T -> nat)
    requires Fetch(source, p).Ok?
    ensures var page := Fetch(source, p).value;
      Weight(page.items, w) + (if page.hasNextPage then Rest(source, p + 1, w) else 0) < Rest(source, p, w)
  {
  }

  // ---------------------------------------------------------------------------
  // What a listing yields to a loop of `next` calls
  // ---------------------------------------------------------------------------

  /**
   * The items of pages `p`, `p + 1`, ... as successive `next` calls return
   * them: a page's items in order, the listing ending at an empty page or a
   * page without a next one, and a failed fetch as the error that follows
   * the items before it.
   */
  function PagesFrom<T>(source: seq<Result<Page<T>, LastFmError>>, p: nat): Consumption.Stream<T, LastFmError>
    decreases if p > |source| then 0 else |source| + 1 - p
  {
    var fetched := Fetch(source, p);
    if fetched.Err? then Consumption.Stream([], Some(fetched.error))
    else if fetched.value.items == [] || !fetched.value.hasNextPage then Consumption.Stream(fetched.value.items, None)
    else
      var later := PagesFrom(source, p + 1);
      Consumption.Stream(fetched.value.items + later.items, later.error)
  }

  /** Fetching page `p` gives its items, then the pages after it when it says there are more. */
  lemma PagesFromFetched<T>(source: seq<Result<Page<T>, LastFmError>>, p: nat)
    requires Fetch(source, p).Ok?
    ensures var page := Fetch(source, p).value;
      PagesFrom(source, p)
      == if page.items == [] then Consumption.Stream([], None)
         else Before(page.items, if page.hasNextPage then PagesFrom(source, p + 1) else Consumption.Stream([], None))
  {
    var page := Fetch(source, p).value;
    if page.items != [] && !page.hasNextPage {
      assert page.items + [] == page.items;
    }
  }

  /** A listing with `items` in front. */
  function Before<T>(items: seq<T>, s: Consumption.Stream<T, LastFmError>): Consumption.Stream<T, LastFmError> {
    Consumption.Stream(items + s.items, s.error)
  }

  // ---------------------------------------------------------------------------
  // Page-at-a-time iterators
  // ---------------------------------------------------------------------------

  /**
   * `ArtistTracksDirectIterator`, `ArtistAlbumsIterator`,
   * `SearchTracksIterator`, `SearchAlbumsIterator`, `SearchArtistsIterator`
   * and `ArtistsIterator`: the same state and the same `next_page` / `next`,
   * over different listings.
   */
  class PagedIterator<T> {
    const source: seq<Result<Page<T>, LastFmError>>
    var currentPage: nat
    var hasMore: bool
    var buffer: seq<T>
    var totalPages: Option<nat>
    /** `tracks_yielded` of `ArtistTracksDirectIterator`. */
    var itemsYielded: nat

    predicate Valid()
      reads this
    {
      currentPage >= 1
    }

    /** The buffered items in the order they will be yielded. */
    function Pending(): seq<T>
      reads this
    {
      Reversed(buffer)
    }

    /** The work this iterator can still produce, with items weighted by `w`. */
    ghost function Bound(w: T -> nat): nat
      reads this
    {
      Weight(buffer, w) + (if hasMore then Rest(source, currentPage, w) else 0)
    }

    /** What later calls of `next` return: the buffered items, then the pages still to fetch. */
    ghost function Listing(): Consumption.Stream<T, LastFmError>
      reads this
    {
      Before(Pending(), if hasMore then PagesFrom(source, currentPage) else Consumption.Stream([], None))
    }

    /** `new`: starts at page 1. */
    constructor (source: seq<Result<Page<T>, LastFmError>>)
      ensures Valid() && this.source == source
      ensures currentPage == 1 && hasMore && buffer == [] && totalPages.None? && itemsYielded == 0
      ensures forall w :: Bound(w) == Rest(source, 1, w)
      ensures Listing() == PagesFrom(source, 1)
    {
      this.source := source;
      currentPage := 1;
      hasMore := true;
      buffer := [];
      totalPages := None;
      itemsYielded := 0;
    }

    /** `with_starting_page`: starts at the given page, but never before page 1. */
    constructor WithStartingPage(source: seq<Result<Page<T>, LastFmError>>, startingPage: nat)
      ensures Valid() && this.source == source
      ensures currentPage == (if startingPage < 1 then 1 else startingPage)
      ensures hasMore && buffer == [] && totalPages.None? && itemsYielded == 0
    {
      this.source := source;
      currentPage := if startingPage < 1 then 1 else startingPage;
      hasMore := true;
      buffer := [];
      totalPages := None;
      itemsYielded := 0;
    }

    /** `current_page`: the last page fetched (0 before any). */
    function CurrentPage(): (p: nat)
      reads this
      ensures Valid() ==> p + 1 == currentPage
    {
      if currentPage > 0 then currentPage - 1 else 0
    }

    /**
     * `next_page`: once the listing said it has no next page, nothing more is
     * fetched. Otherwise the current page is fetched; on success `has_more`
     * follows the page and the page counter grows by one, and a failed fetch
     * changes nothing. `total_pages` is only recorded, never used to stop.
     */
    method NextPage() returns (r: Result<Option<Page<T>>, LastFmError>)
      requires Valid()
      modifies this
      ensures Valid() && buffer == old(buffer) && itemsYielded == old(itemsYielded)
      ensures !old(hasMore) ==> r == Ok(None) && unchanged(this)
      ensures old(hasMore) && Fetch(source, old(currentPage)).Err? ==>
        r == Err(Fetch(source, old(currentPage)).error) && unchanged(this)
      ensures old(hasMore) && Fetch(source, old(currentPage)).Ok? ==>
        var page := Fetch(source, old(currentPage)).value;
        r == Ok(Some(page)) && hasMore == page.hasNextPage
        && currentPage == old(currentPage) + 1 && totalPages == page.totalPages
    {
      if !hasMore {
        return Ok(None);
      }
      var fetched := Fetch(source, currentPage);
      if fetched.Err? {
        return Err(fetched.error);
      }
      var page := fetched.value;
      hasMore := page.hasNextPage;
      currentPage := currentPage + 1;
      totalPages := page.totalPages;
      r := Ok(Some(page));
    }

    /**
     * `next`: the next buffered item, fetching the next page first when the
     * buffer is empty. The items of a page come out in the page's order. An
     * empty page yields `None` for this call only.
     */
    method Next(ghost w: T -> nat) returns (r: Result<Option<T>, LastFmError>)
      requires Valid()
      modifies this
      ensures Valid()
      ensures old(buffer) != [] ==>
        r == Ok(Some(old(Pending())[0])) && Pending() == old(Pending())[1..]
        && currentPage == old(currentPage) && hasMore == old(hasMore) && totalPages == old(totalPages)
      ensures old(buffer) == [] && !old(hasMore) ==> r == Ok(None) && unchanged(this)
      ensures old(buffer) == [] && old(hasMore) && Fetch(source, old(currentPage)).Err? ==>
        r == Err(Fetch(source, old(currentPage)).error) && unchanged(this)
      ensures old(buffer) == [] && old(hasMore) && Fetch(source, old(currentPage)).Ok? ==>
        var page := Fetch(source, old(currentPage)).value;
        hasMore == page.hasNextPage && currentPage == old(currentPage) + 1 && totalPages == page.totalPages
        && (page.items == [] ==> r == Ok(None) && Pending() == [])
        && (page.items != [] ==> r == Ok(Some(page.items[0])) && Pending() == page.items[1..])
      ensures itemsYielded == old(itemsYielded) + (if r.Ok? && r.value.Some? then 1 else 0)
      ensures r.Ok? && r.value.Some? ==> Bound(w) + 1 + w(r.value.value) <= old(Bound(w))
      ensures r.Ok? ==> Bound(w) <= old(Bound(w))
      ensures r.Ok? && r.value.Some? ==> old(Listing()) == Before([r.value.value], Listing())
      ensures r == Ok(None) ==> old(Listing()) == Consumption.Stream([], None)
      ensures r.Err? ==> old(Listing()) == Consumption.Stream([], Some(r.error))
    {
      if buffer == [] {
        var stop := FillBuffer(w);
        if stop.Some? {
          return stop.value;
        }
      }
      var item := Pop(w);
      r := Ok(Some(item));
    }

    /**
     * The part of `next` that runs on an empty buffer: fetches the next page
     * and buffers its items. `stop` is what `next` returns when there is no
     * item to pop: the end of the pages, an empty page, or the fetch error.
     */
    method FillBuffer(ghost w: T -> nat) returns (stop: Option<Result<Option<T>, LastFmError>>)
      requires Valid() && buffer == []
      modifies this
      ensures Valid() && itemsYielded == old(itemsYielded) && Bound(w) <= old(Bound(w))
      ensures !old(hasMore) ==> stop == Some(Ok(None)) && unchanged(this)
      ensures old(hasMore) && Fetch(source, old(currentPage)).Err? ==>
        stop == Some(Err(Fetch(source, old(currentPage)).error)) && unchanged(this)
      ensures old(hasMore) && Fetch(source, old(currentPage)).Ok? ==>
        var page := Fetch(source, old(currentPage)).value;
        hasMore == page.hasNextPage && currentPage == old(currentPage) + 1 && totalPages == page.totalPages
        && Pending() == page.items && (stop.Some? <==> page.items == []) && (stop.Some? ==> stop.value == Ok(None))
      ensures stop.None? ==> Listing() == old(Listing())
      ensures stop.Some? && stop.value.Ok? ==> old(Listing()) == Consumption.Stream([], None)
      ensures stop.Some? && stop.value.Err? ==> old(Listing()) == Consumption.Stream([], Some(stop.value.error))
    {
      ghost var before := Bound(w);
      ghost var listed := Listing();
      ghost var p := currentPage;
      assert hasMore ==> listed == PagesFrom(source, p);
      var next := NextPage();
      if next.Err? {
        assert listed == Consumption.Stream([], Some(next.error));
        return Some(Err(next.error));
      }
      if next.value.None? {
        assert listed == Consumption.Stream([], None);
        return Some(Ok(None));
      }
      stop := BufferFetched(next.value.value, p, before, listed, w);
    }

    /** The last part of `next` on an empty buffer: a fetched page's items become the buffer. */
    method BufferFetched(page: Page<T>, ghost p: nat, ghost before: nat,
                         ghost listed: Consumption.Stream<T, LastFmError>, ghost w: T -> nat)
      returns (stop: Option<Result<Option<T>, LastFmError>>)
      requires Valid() && buffer == [] && Fetch(source, p) == Ok(page)
      requires hasMore == page.hasNextPage && currentPage == p + 1
      requires before == Rest(source, p, w) && listed == PagesFrom(source, p)
      modifies this
      ensures Valid() && Pending() == page.items && Bound(w) < before
      ensures hasMore == old(hasMore) && currentPage == old(currentPage) && totalPages == old(totalPages)
      ensures itemsYielded == old(itemsYielded)
      ensures (stop.Some? <==> page.items == []) && (stop.Some? ==> stop.value == Ok(None))
      ensures stop.None? ==> Listing() == listed
      ensures stop.Some? ==> listed == Consumption.Stream([], None)
    {
      buffer := Reversed(page.items);
      WeightReversed(page.items, w);
      FetchShrinks(source, p, w);
      assert Pending() == page.items;
      PagesFromFetched(source, p);
      stop := if buffer == [] then Some(Ok(None)) else None;
    }

    /** Pops the next buffered item: the first of the pending ones. */
    method Pop(ghost w: T -> nat) returns (item: T)
      requires buffer != []
      modifies this
      ensures item == old(Pending())[0] && Pending() == old(Pending())[1..]
      ensures Bound(w) + 1 + w(item) == old(Bound(w))
      ensures currentPage == old(currentPage) && hasMore == old(hasMore) && totalPages == old(totalPages)
      ensures itemsYielded == old(itemsYielded) + 1
      ensures old(Listing()) == Before([item], Listing())
    {
      item := buffer[|buffer| - 1];
      buffer := buffer[..|buffer| - 1];
      itemsYielded := itemsYielded + 1;
    }

    /** `total_pages`: as last reported by a fetched page. */
    function TotalPages(): Option<nat>
      reads this
    {
      totalPages
    }
  }

  // ---------------------------------------------------------------------------
  // Recent scrobbles, with an optional stop timestamp
  // ---------------------------------------------------------------------------

  /** A track at or before the stop timestamp; a track without a timestamp never stops. */
  predicate StopsAt(t: Track, stop: nat) {
    t.timestamp.Some? && t.timestamp.value <= stop
  }

  /** The tracks of a page before the first one that stops the iteration. */
  function BeforeStop(items: seq<Track>, stop: nat): (kept: seq<Track>)
    ensures kept <= items
    ensures forall j :: 0 <= j < |kept| ==> !StopsAt(kept[j], stop)
    ensures |kept| < |items| ==> StopsAt(items[|kept|], stop)
  {
    if |items| == 0 || StopsAt(items[0], stop) then []
    else [items[0]] + BeforeStop(items[1..], stop)
  }

  /** Any prefix without a stopping track, followed by a stopping track or the end, is what `BeforeStop` keeps. */
  lemma {:induction false} BeforeStopUnique(items: seq<Track>, stop: nat, i: nat)
    requires i <= |items|
    requires forall j :: 0 <= j < i ==> !StopsAt(items[j], stop)
    requires i == |items| || StopsAt(items[i], stop)
    ensures BeforeStop(items, stop) == items[..i]
    decreases i
  {
    if i > 0 {
      BeforeStopUnique(items[1..], stop, i - 1);
      assert items[..i] == [items[0]] + items[1..][..i - 1];
    }
  }

  /** Tracks without timestamps are all kept. */
  lemma {:induction false} BeforeStopKeepsUntimed(items: seq<Track>, stop: nat)
    requires forall j :: 0 <= j < |items| ==> items[j].timestamp.None?
    ensures BeforeStop(items, stop) == items
    decreases |items|
  {
    if |items| > 0 {
      BeforeStopKeepsUntimed(items[1..], stop);
    }
  }

  /** Some track of the page stops the iteration. */
  predicate HitsStop(items: seq<Track>, stop: nat) {
    exists j :: 0 <= j < |items| && StopsAt(items[j], stop)
  }

  /** Everything is kept exactly when no track stops the iteration. */
  lemma BeforeStopAll(items: seq<Track>, stop: nat)
    ensures |BeforeStop(items, stop)| == |items| <==> !HitsStop(items, stop)
  {
    var kept := BeforeStop(items, stop);
    if |kept| == |items| {
      assert kept == items;
    }
  }

  /** The tracks `RecentTracksIterator` keeps from a fetched page. */
  function Kept(items: seq<Track>, stop: Option<nat>): seq<Track> {
    if stop.Some? then BeforeStop(items, stop.value) else items
  }

  /** `RecentTracksIterator`: the user's scrobbles, newest first. */
  class RecentTracksIterator {
    const source: seq<Result<Page<Track>, LastFmError>>
    var currentPage: nat
    var hasMore: bool
    var buffer: seq<Track>
    var stopAtTimestamp: Option<nat>

    predicate Valid()
      reads this
    {
      currentPage >= 1
    }

    function Pending(): seq<Track>
      reads this
    {
      Reversed(buffer)
    }

    ghost function Bound(w: Track -> nat): nat
      reads this
    {
      Weight(buffer, w) + (if hasMore then Rest(source, currentPage, w) else 0)
    }

    /** `new`: `with_starting_page(1)`. */
    constructor (source: seq<Result<Page<Track>, LastFmError>>)
      ensures Valid() && this.source == source
      ensures currentPage == 1 && hasMore && buffer == [] && stopAtTimestamp.None?
    {
      this.source := source;
      currentPage := 1;
      hasMore := true;
      buffer := [];
      stopAtTimestamp := None;
    }

    /** `with_starting_page`: never before page 1, and no stop timestamp. */
    constructor WithStartingPage(source: seq<Result<Page<Track>, LastFmError>>, startingPage: nat)
      ensures Valid() && this.source == source
      ensures currentPage == (if startingPage < 1 then 1 else startingPage)
      ensures hasMore && buffer == [] && stopAtTimestamp.None?
    {
      this.source := source;
      currentPage := if startingPage < 1 then 1 else startingPage;
      hasMore := true;
      buffer := [];
      stopAtTimestamp := None;
    }

    /** `with_stop_timestamp`: sets the stop timestamp and nothing else. */
    method WithStopTimestamp(timestamp: nat)
      modifies this
      ensures stopAtTimestamp == Some(timestamp)
      ensures currentPage == old(currentPage) && hasMore == old(hasMore) && buffer == old(buffer)
    {
      stopAtTimestamp := Some(timestamp);
    }

    function CurrentPage(): (p: nat)
      reads this
      ensures Valid() ==> p + 1 == currentPage
    {
      if currentPage > 0 then currentPage - 1 else 0
    }

    /**
     * `next`. An empty page ends the iteration for good. With a stop
     * timestamp, only the tracks before the first one at or below it are
     * kept, and no further page is fetched once such a track was seen.
     */
    method Next(ghost w: Track -> nat) returns (r: Result<Option<Track>, LastFmError>)
      requires Valid()
      modifies this
      ensures Valid() && stopAtTimestamp == old(stopAtTimestamp)
      ensures old(buffer) != [] ==>
        r == Ok(Some(old(Pending())[0])) && Pending() == old(Pending())[1..]
        && currentPage == old(currentPage) && hasMore == old(hasMore)
      ensures old(buffer) == [] && !old(hasMore) ==> r == Ok(None) && unchanged(this)
      ensures old(buffer) == [] && old(hasMore) && Fetch(source, old(currentPage)).Err? ==>
        r == Err(Fetch(source, old(currentPage)).error) && unchanged(this)
      ensures old(buffer) == [] && old(hasMore) && Fetch(source, old(currentPage)).Ok? ==>
        var page := Fetch(source, old(currentPage)).value;
        if page.items == [] then
          r == Ok(None) && !hasMore && currentPage == old(currentPage) && Pending() == []
        else
          var kept := Kept(page.items, stopAtTimestamp);
          currentPage == old(currentPage) + 1
          && hasMore == (page.hasNextPage && !(stopAtTimestamp.Some? && HitsStop(page.items, stopAtTimestamp.value)))
          && (kept == [] ==> r == Ok(None) && Pending() == [])
          && (kept != [] ==> r == Ok(Some(kept[0])) && Pending() == kept[1..])
      ensures r.Ok? && r.value.Some? ==> Bound(w) + 1 + w(r.value.value) <= old(Bound(w))
      ensures r.Ok? ==> Bound(w) <= old(Bound(w))
    {
      if buffer == [] {
        if !hasMore {
          return Ok(None);
        }
        var failure := Refill(w);
        if failure.Some? {
          return Err(failure.value);
        }
        if buffer == [] {
          return Ok(None);
        }
      }
      var item := Pop(w);
      r := Ok(Some(item));
    }

    /**
     * The fetching half of `next`: fetches the current page and buffers the
     * tracks it keeps. A failed fetch changes nothing; an empty page ends the
     * iteration without moving to the next page.
     */
    method Refill(ghost w: Track -> nat) returns (failure: Option<LastFmError>)
      requires Valid() && buffer == [] && hasMore
      modifies this
      ensures Valid() && stopAtTimestamp == old(stopAtTimestamp)
      ensures Fetch(source, old(currentPage)).Err? ==>
        failure == Some(Fetch(source, old(currentPage)).error) && unchanged(this)
      ensures Fetch(source, old(currentPage)).Ok? ==>
        var page := Fetch(source, old(currentPage)).value;
        failure.None?
        && (page.items == [] ==> !hasMore && currentPage == old(currentPage) && buffer == [])
        && (page.items != [] ==>
              currentPage == old(currentPage) + 1
              && hasMore == (page.hasNextPage && !(stopAtTimestamp.Some? && HitsStop(page.items, stopAtTimestamp.value)))
              && Pending() == Kept(page.items, stopAtTimestamp))
      ensures failure.None? ==> Bound(w) < old(Bound(w))
    {
      ghost var before := Rest(source, currentPage, w);
      assert Bound(w) == before;
      var fetched := Fetch(source, currentPage);
      if fetched.Err? {
        return Some(fetched.error);
      }
      var page := fetched.value;
      failure := None;
      if page.items == [] {
        hasMore := false;
        assert Bound(w) == 0;
        return;
      }
      ghost var p := currentPage;
      BufferPage(page.items, page.hasNextPage);
      assert Bound(w) < before by {
        KeptShrinks(source, p, stopAtTimestamp, w);
      }
    }

    /**
     * Buffers the tracks kept from a non-empty fetched page and moves to the
     * next page; a track at or below the stop timestamp ends the iteration.
     */
    method BufferPage(items: seq<Track>, hasNextPage: bool)
      requires Valid()
      modifies this
      ensures Valid() && stopAtTimestamp == old(stopAtTimestamp)
      ensures currentPage == old(currentPage) + 1
      ensures hasMore == (hasNextPage && !(stopAtTimestamp.Some? && HitsStop(items, stopAtTimestamp.value)))
      ensures buffer == Reversed(Kept(items, stopAtTimestamp)) && Pending() == Kept(items, stopAtTimestamp)
    {
      var kept := items;
      var hit := false;
      if stopAtTimestamp.Some? {
        kept, hit := KeepBeforeStop(items, stopAtTimestamp.value);
      }
      hasMore := hasNextPage && !hit;
      buffer := Reversed(kept);
      currentPage := currentPage + 1;
      assert Pending() == kept;
    }

    /** Pops the next buffered item: the first of the pending ones. */
    method Pop(ghost w: Track -> nat) returns (item: Track)
      requires buffer != []
      modifies this
      ensures item == old(Pending())[0] && Pending() == old(Pending())[1..]
      ensures Bound(w) + 1 + w(item) == old(Bound(w))
      ensures currentPage == old(currentPage) && hasMore == old(hasMore) && stopAtTimestamp == old(stopAtTimestamp)
    {
      item := buffer[|buffer| - 1];
      buffer := buffer[..|buffer| - 1];
    }
  }

  /**
   * The stop-timestamp scan of `RecentTracksIterator::next`: keeps the tracks
   * up to the first one at or before `stop`, and says whether there was one.
   */
  method KeepBeforeStop(items: seq<Track>, stop: nat) returns (kept: seq<Track>, hit: bool)
    ensures kept == BeforeStop(items, stop)
    ensures hit <==> HitsStop(items, stop)
  {
    kept := [];
    hit := false;
    var i := 0;
    while i < |items|
      invariant 0 <= i <= |items|
      invariant kept == items[..i]
      invariant forall j :: 0 <= j < i ==> !StopsAt(items[j], stop)
    {
      if StopsAt(items[i], stop) {
        hit := true;
        break;
      }
      kept := kept + [items[i]];
      i := i + 1;
    }
    BeforeStopUnique(items, stop, i);
    BeforeStopAll(items, stop);
  }

  /** Buffering the kept tracks of a fetched page leaves less work than there was before the fetch. */
  lemma KeptShrinks(source: seq<Result<Page<Track>, LastFmError>>, p: nat, stop: Option<nat>, w: Track -> nat)
    requires Fetch(source, p).Ok?
    ensures var page := Fetch(source, p).value;
      Weight(Reversed(Kept(page.items, stop)), w)
      + (if page.hasNextPage && !(stop.Some? && HitsStop(page.items, stop.value)) then Rest(source, p + 1, w) else 0)
      < Rest(source, p, w)
  {
    var items := Fetch(source, p).value.items;
    var kept := Kept(items, stop);
    FetchShrinks(source, p, w);
    WeightPrefix(items, |kept|, w);
    assert items[..|kept|] == kept;
    WeightReversed(kept, w);
  }

  /** A prefix weighs no more than the whole. */
  lemma {:induction false} WeightPrefix<T>(s: seq<T>, n: nat, w: T -> nat)
    requires n <= |s|
    ensures Weight(s[..n], w) <= Weight(s, w)
    decreases |s|
  {
    if n < |s| {
      WeightPrefix(s[..|s| - 1], n, w);
      assert s[..|s| - 1][..n] == s[..n];
    } else {
      assert s[..n] == s;
    }
  }

  // ---------------------------------------------------------------------------
  // One album's tracks, and an artist's tracks album by album
  // ---------------------------------------------------------------------------

  /**
   * `AlbumTracksIterator`: the tracks of one album, from a single page that is
   * fetched on the first call. `load` is the outcome of that fetch.
   */
  class AlbumTracksIterator {
    const albumName: string
    const artistName: string
    const load: Result<Page<Track>, LastFmError>
    var tracks: Option<seq<Track>>
    var index: nat
    /** How often the page was fetched. */
    ghost var fetches: nat

    ghost predicate Valid()
      reads this
    {
      (tracks.Some? ==> load.Ok? && tracks.value == load.value.items && index <= |tracks.value| && fetches == 1)
      && (tracks.None? ==> index == 0 && (load.Ok? ==> fetches == 0))
    }

    /** The tracks still to be yielded, in order. */
    function Remaining(): seq<Track>
      reads this
    {
      if tracks.None? then (if load.Ok? then load.value.items else [])
      else if index <= |tracks.value| then tracks.value[index..] else []
    }

    /** The work still to come, with tracks weighted by `w`. */
    ghost function Left(w: Track -> nat): nat
      reads this
    {
      Weight(Remaining(), w)
    }

    constructor (albumName: string, artistName: string, load: Result<Page<Track>, LastFmError>)
      ensures Valid() && this.albumName == albumName && this.artistName == artistName && this.load == load
      ensures tracks.None? && index == 0 && fetches == 0
    {
      this.albumName := albumName;
      this.artistName := artistName;
      this.load := load;
      tracks := None;
      index := 0;
      fetches := 0;
    }

    /**
     * `next`: fetches the page if it is not loaded yet (a failed fetch is
     * returned and retried on the next call), then yields the loaded tracks by
     * increasing index, each once. A successful fetch happens at most once.
     */
    method Next(ghost w: Track -> nat) returns (r: Result<Option<Track>, LastFmError>)
      requires Valid()
      modifies this
      ensures Valid()
      ensures load.Err? ==> r == Err(load.error) && tracks.None?
      ensures load.Ok? ==>
        tracks == Some(load.value.items)
        && r == (if old(index) < |load.value.items| then Ok(Some(load.value.items[old(index)])) else Ok(None))
        && index == (if old(index) < |load.value.items| then old(index) + 1 else old(index))
      ensures load.Ok? ==> fetches <= 1
      ensures r.Ok? && r.value.Some? ==> old(Remaining()) == [r.value.value] + Remaining()
      ensures r.Ok? && r.value.None? ==> old(Remaining()) == [] && Remaining() == []
      ensures r.Ok? && r.value.Some? ==> Left(w) + 1 + w(r.value.value) == old(Left(w))
      ensures r.Ok? ==> Left(w) <= old(Left(w))
    {
      if tracks.None? {
        fetches := fetches + 1;
        if load.Err? {
          return Err(load.error);
        }
        tracks := Some(load.value.items);
      }
      if index < |tracks.value| {
        ghost var rest := tracks.value[index..];
        assert rest == [rest[0]] + rest[1..];
        WeightFront(rest, w);
        r := Ok(Some(tracks.value[index]));
        index := index + 1;
        assert Remaining() == rest[1..];
      } else {
        r := Ok(None);
      }
    }

    /**
     * `collect_all` on a fresh or partly read iterator (as `get_album_tracks`
     * uses it): the tracks not yet yielded, or the fetch error.
     */
    method CollectAll() returns (r: Result<seq<Track>, LastFmError>)
      requires Valid()
      modifies this
      ensures Valid()
      ensures load.Err? ==> r == Err(load.error)
      ensures load.Ok? ==> r == Ok(old(Remaining()))
    {
      var items: seq<Track> := [];
      ghost var all := Remaining();
      while true
        invariant Valid()
        invariant load.Ok? ==> all == items + Remaining()
        invariant load.Err? ==> items == []
        decreases |Remaining()|
      {
        var next := Next(Unweighted);
        if next.Err? {
          return Err(next.error);
        }
        if next.value.None? {
          assert items + [] == items;
          return Ok(items);
        }
        AppendOne(items, next.value.value, Remaining());
        items := items + [next.value.value];
      }
    }

    /** Album tracks are not paginated: the current page is always 0. */
    function CurrentPage(): nat {
      0
    }
  }

  lemma AppendOne<T>(items: seq<T>, x: T, rest: seq<T>)
    ensures items + ([x] + rest) == (items + [x]) + rest
  {
  }

  /** The weight of a track that leads to no further work. */
  ghost function Unweighted(t: Track): nat {
    0
  }

  /** The tracks an album's track listing yields. */
  function AlbumTracksOf(albumTracks: string -> Result<Page<Track>, LastFmError>, a: Album): seq<Track> {
    if albumTracks(a.name).Ok? then albumTracks(a.name).value.items else []
  }

  // ---------------------------------------------------------------------------
  // What an artist's track listing yields
  // ---------------------------------------------------------------------------

  /**
   * Two parts of a listing read one after the other by a collecting loop:
   * the first part's error, or its items followed by what the second gives.
   */
  function Then<T>(a: Result<seq<T>, LastFmError>, b: Result<seq<T>, LastFmError>): Result<seq<T>, LastFmError> {
    if a.Err? then a else Consumption.Prepend(a.value, b)
  }

  lemma ThenEmpty<T>(b: Result<seq<T>, LastFmError>)
    ensures Then(Ok([]), b) == b
  {
    Consumption.PrependEmpty(b);
  }

  lemma ThenAssoc<T>(a: Result<seq<T>, LastFmError>, b: Result<seq<T>, LastFmError>, c: Result<seq<T>, LastFmError>)
    ensures Then(Then(a, b), c) == Then(a, Then(b, c))
  {
    if a.Ok? && b.Ok? {
      Consumption.PrependTwice(a.value, b.value, c);
    }
  }

  /** What an album's track iterator yields: the tracks of its page, or the page's error. */
  function AlbumLoad(albumTracks: string -> Result<Page<Track>, LastFmError>, a: Album): Result<seq<Track>, LastFmError> {
    var load := albumTracks(a.name);
    if load.Ok? then Ok(load.value.items) else Err(load.error)
  }

  /** The tracks of a list of albums, album after album, up to the first album whose page fails. */
  function TracksOfAlbums(albumTracks: string -> Result<Page<Track>, LastFmError>, albums: seq<Album>): Result<seq<Track>, LastFmError> {
    if albums == [] then Ok([]) else Then(AlbumLoad(albumTracks, albums[0]), TracksOfAlbums(albumTracks, albums[1..]))
  }

  /** The tracks of the albums an album listing yields, then the listing's own error. */
  function TracksOfListing(albumTracks: string -> Result<Page<Track>, LastFmError>,
                           listing: Consumption.Stream<Album, LastFmError>): Result<seq<Track>, LastFmError> {
    Then(TracksOfAlbums(albumTracks, listing.items), if listing.error.Some? then Err(listing.error.value) else Ok([]))
  }

  /**
   * Every track of an artist: the albums of the album listing in order and,
   * for each, the tracks of its page in order; or the first error met on the
   * way, of the listing or of an album's page.
   */
  function ArtistTracksListing(albumSource: seq<Result<Page<Album>, LastFmError>>,
                               albumTracks: string -> Result<Page<Track>, LastFmError>): Result<seq<Track>, LastFmError> {
    TracksOfListing(albumTracks, PagesFrom(albumSource, 1))
  }

  /** The first album of a listing comes first. */
  lemma TracksOfListingFront(albumTracks: string -> Result<Page<Track>, LastFmError>, a: Album,
                             listing: Consumption.Stream<Album, LastFmError>)
    ensures TracksOfListing(albumTracks, Before([a], listing))
         == Then(AlbumLoad(albumTracks, a), TracksOfListing(albumTracks, listing))
  {
    var items := Before([a], listing).items;
    assert items[1..] == listing.items;
    ThenAssoc(AlbumLoad(albumTracks, a), TracksOfAlbums(albumTracks, listing.items),
              if listing.error.Some? then Err(listing.error.value) else Ok([]));
  }

  /**
   * `ArtistTracksIterator`: an artist's tracks, album by album. The album
   * listing is opened on the first call; each album's tracks are read through
   * an `AlbumTracksIterator`. Once the albums run out the iterator is finished
   * for good.
   */
  class ArtistTracksIterator {
    const artist: string
    /** The fetch outcomes of the pages of the artist's album listing. */
    const albumSource: seq<Result<Page<Album>, LastFmError>>
    /** The fetch outcome of an album's track page, by album name. */
    const albumTracks: string -> Result<Page<Track>, LastFmError>
    var albumIterator: PagedIterator?<Album>
    var currentAlbumTracks: AlbumTracksIterator?
    var trackBuffer: seq<Track>
    var finished: bool

    /** An album weighs as much as the tracks it will yield. */
    ghost function AlbumWeight(w: Track -> nat): Album -> nat {
      a => Weight(AlbumTracksOf(albumTracks, a), w)
    }

    /** The iterator's parts, whatever the buffer holds. */
    ghost predicate PartsValid()
      reads this, albumIterator, currentAlbumTracks
    {
      (albumIterator != null ==> albumIterator.Valid() && albumIterator.source == albumSource)
      && (currentAlbumTracks != null ==>
            currentAlbumTracks.Valid() && currentAlbumTracks.artistName == artist
            && currentAlbumTracks.load == albumTracks(currentAlbumTracks.albumName))
    }

    /** Between calls the track buffer is empty: each call pushes one track and pops it. */
    ghost predicate Valid()
      reads this, albumIterator, currentAlbumTracks
    {
      PartsValid() && trackBuffer == []
    }

    /** The work left in the album listing and the current album, with tracks weighted by `w`. */
    ghost function Measure(w: Track -> nat): nat
      reads this, albumIterator, currentAlbumTracks
    {
      (if albumIterator == null then Rest(albumSource, 1, AlbumWeight(w)) else albumIterator.Bound(AlbumWeight(w)))
      + (if currentAlbumTracks == null then 0 else currentAlbumTracks.Left(w) + 1)
    }

    ghost function Bound(w: Track -> nat): nat
      reads this, albumIterator, currentAlbumTracks
    {
      if finished then 0 else Measure(w)
    }

    /** What the current album still yields: its remaining tracks, or its page's error. */
    ghost function CurrentStream(): Result<seq<Track>, LastFmError>
      reads this, currentAlbumTracks
    {
      if currentAlbumTracks == null then Ok([])
      else if currentAlbumTracks.load.Err? then Err(currentAlbumTracks.load.error)
      else Ok(currentAlbumTracks.Remaining())
    }

    /** What the albums not yet opened yield. */
    ghost function AlbumsStream(): Result<seq<Track>, LastFmError>
      reads this, albumIterator
    {
      TracksOfListing(albumTracks, if albumIterator == null then PagesFrom(albumSource, 1) else albumIterator.Listing())
    }

    /**
     * What later calls of `next` return: the artist's tracks still to come,
     * in order, then `None`; or the error a call will return first.
     */
    ghost function Stream(): Result<seq<Track>, LastFmError>
      reads this, albumIterator, currentAlbumTracks
    {
      if finished then Ok([]) else Consumption.Prepend(trackBuffer, Then(CurrentStream(), AlbumsStream()))
    }

    constructor (artist: string, albumSource: seq<Result<Page<Album>, LastFmError>>,
                 albumTracks: string -> Result<Page<Track>, LastFmError>)
      ensures Valid() && this.artist == artist && this.albumSource == albumSource && this.albumTracks == albumTracks
      ensures albumIterator == null && currentAlbumTracks == null && !finished
      ensures Stream() == ArtistTracksListing(albumSource, albumTracks)
    {
      this.artist := artist;
      this.albumSource := albumSource;
      this.albumTracks := albumTracks;
      albumIterator := null;
      currentAlbumTracks := null;
      trackBuffer := [];
      finished := false;
      ThenEmpty(ArtistTracksListing(albumSource, albumTracks));
      Consumption.PrependEmpty(ArtistTracksListing(albumSource, albumTracks));
    }

    /** `t` is the track the current album's iterator yielded last. */
    ghost predicate JustYielded(t: Track)
      reads this, currentAlbumTracks
    {
      currentAlbumTracks != null && currentAlbumTracks.tracks.Some?
      && 0 < currentAlbumTracks.index <= |currentAlbumTracks.tracks.value|
      && t == currentAlbumTracks.tracks.value[currentAlbumTracks.index - 1]
    }

    /**
     * `next`: once finished, always `None`. Otherwise the next track of the
     * current album, moving on to the next album when one is exhausted; the
     * end of the album listing finishes the iterator.
     */
    method Next(ghost w: Track -> nat) returns (r: Result<Option<Track>, LastFmError>)
      requires Valid()
      modifies this, albumIterator, currentAlbumTracks
      ensures Valid()
      ensures albumIterator == null || albumIterator == old(albumIterator) || fresh(albumIterator)
      ensures currentAlbumTracks == null || currentAlbumTracks == old(currentAlbumTracks) || fresh(currentAlbumTracks)
      ensures old(finished) ==> r == Ok(None) && finished && unchanged(this)
      ensures r == Ok(None) ==> finished
      ensures finished ==> old(finished) || r == Ok(None)
      ensures r.Ok? && r.value.Some? ==> JustYielded(r.value.value) && Bound(w) + 1 + w(r.value.value) <= old(Bound(w))
      ensures r.Ok? && r.value.Some? ==> old(Stream()) == Consumption.Prepend([r.value.value], Stream())
      ensures r == Ok(None) ==> old(Stream()) == Ok([])
      ensures r.Err? ==> old(Stream()) == Err(r.error)
    {
      if finished {
        return Ok(None);
      }
      ghost var stream := Stream();
      var stop := Advance(w);
      if stop.Some? {
        return stop.value;
      }
      var track := PopTrack(w);
      r := Ok(Some(track));
    }

    /** Takes the track a round of `next` buffered. */
    method PopTrack(ghost w: Track -> nat) returns (track: Track)
      requires PartsValid() && !finished && |trackBuffer| == 1
      modifies this
      ensures Valid() && !finished && track == old(trackBuffer[0])
      ensures albumIterator == old(albumIterator) && currentAlbumTracks == old(currentAlbumTracks)
      ensures Measure(w) == old(Measure(w)) && JustYielded(track) == old(JustYielded(trackBuffer[0]))
      ensures old(Stream()) == Consumption.Prepend([track], Stream())
    {
      ghost var rest := Then(CurrentStream(), AlbumsStream());
      track := trackBuffer[0];
      assert trackBuffer == [track];
      assert old(Stream()) == Consumption.Prepend([track], rest);
      trackBuffer := [];
      assert Then(CurrentStream(), AlbumsStream()) == rest;
      Consumption.PrependEmpty(rest);
    }

    /**
     * The loop of `next`: rounds until a track is buffered, the listing
     * ends or an error occurs. `stop` is what `next` returns when no track
     * was found.
     */
    method Advance(ghost w: Track -> nat) returns (stop: Option<Result<Option<Track>, LastFmError>>)
      requires Valid() && !finished
      modifies this, albumIterator, currentAlbumTracks
      ensures PartsValid()
      ensures albumIterator == null || albumIterator == old(albumIterator) || fresh(albumIterator)
      ensures currentAlbumTracks == null || currentAlbumTracks == old(currentAlbumTracks) || fresh(currentAlbumTracks)
      ensures stop.Some? ==> trackBuffer == []
      ensures stop.Some? && stop.value.Ok? ==> stop.value == Ok(None) && finished && old(Stream()) == Ok([])
      ensures stop.Some? && stop.value.Err? ==> !finished && old(Stream()) == Err(stop.value.error)
      ensures stop.None? ==>
        !finished && |trackBuffer| == 1 && JustYielded(trackBuffer[0])
        && Measure(w) + 1 + w(trackBuffer[0]) <= old(Measure(w)) && Stream() == old(Stream())
    {
      ghost var start := Measure(w);
      ghost var stream := Stream();
      while trackBuffer == []
        invariant PartsValid() && !finished
        invariant Stream() == stream
        invariant albumIterator == null || albumIterator == old(albumIterator) || fresh(albumIterator)
        invariant currentAlbumTracks == null || currentAlbumTracks == old(currentAlbumTracks) || fresh(currentAlbumTracks)
        invariant Measure(w) <= start
        invariant trackBuffer != [] ==>
          |trackBuffer| == 1 && JustYielded(trackBuffer[0]) && Measure(w) + 1 + w(trackBuffer[0]) <= start
        decreases Measure(w)
      {
        stop := Step(w);
        if stop.Some? {
          return;
        }
      }
      stop := None;
    }

    /**
     * One round of the loop in `next`: opens the next album when there is no
     * current one, then asks the current album for a track and buffers it, or
     * drops the album when it is exhausted. `stop` is what `next` returns
     * when the round ends the call without a track.
     */
    method Step(ghost w: Track -> nat) returns (stop: Option<Result<Option<Track>, LastFmError>>)
      requires PartsValid() && !finished && trackBuffer == []
      modifies this, albumIterator, currentAlbumTracks
      ensures PartsValid()
      ensures albumIterator == null || albumIterator == old(albumIterator) || fresh(albumIterator)
      ensures currentAlbumTracks == null || currentAlbumTracks == old(currentAlbumTracks) || fresh(currentAlbumTracks)
      ensures stop.Some? ==> trackBuffer == []
      ensures stop.Some? && stop.value.Ok? ==> stop.value == Ok(None) && finished
      ensures stop.Some? && stop.value.Err? ==> !finished
      ensures stop.None? ==> !finished && Measure(w) < old(Measure(w))
      ensures stop.None? && trackBuffer != [] ==>
        |trackBuffer| == 1 && JustYielded(trackBuffer[0]) && Measure(w) + 1 + w(trackBuffer[0]) <= old(Measure(w))
      ensures stop.None? ==> Stream() == old(Stream())
      ensures stop.Some? && stop.value.Err? ==> old(Stream()) == Err(stop.value.error)
      ensures stop.Some? && stop.value.Ok? ==> old(Stream()) == Ok([])
    {
      if currentAlbumTracks == null {
        stop := OpenNextAlbum(w);
        if stop.Some? {
          return;
        }
      }
      stop := PullTrack(w);
    }

    /**
     * The second half of a round: asks the current album for a track and
     * buffers it, or drops the album when it is exhausted; an error is passed on.
     */
    method PullTrack(ghost w: Track -> nat) returns (stop: Option<Result<Option<Track>, LastFmError>>)
      requires PartsValid() && currentAlbumTracks != null && !finished && trackBuffer == []
      modifies this, currentAlbumTracks
      ensures PartsValid() && !finished && albumIterator == old(albumIterator)
      ensures currentAlbumTracks == null || currentAlbumTracks == old(currentAlbumTracks)
      ensures stop.Some? ==> trackBuffer == [] && stop.value.Err?
      ensures stop.None? ==> Measure(w) < old(Measure(w))
      ensures stop.None? && trackBuffer != [] ==>
        |trackBuffer| == 1 && JustYielded(trackBuffer[0]) && Measure(w) + 1 + w(trackBuffer[0]) <= old(Measure(w))
      ensures stop.None? ==> Stream() == old(Stream())
      ensures stop.Some? ==> old(Stream()) == Err(stop.value.error)
    {
      ghost var albums := AlbumsStream();
      ghost var remaining := currentAlbumTracks.Remaining();
      assert old(Stream()) == Then(CurrentStream(), albums) by {
        Consumption.PrependEmpty(Then(CurrentStream(), albums));
      }
      var nextTrack := currentAlbumTracks.Next(w);
      assert AlbumsStream() == albums;
      if nextTrack.Err? {
        return Some(Err(nextTrack.error));
      }
      if nextTrack.value.Some? {
        trackBuffer := trackBuffer + [nextTrack.value.value];
        assert Stream() == old(Stream()) by {
          var later := currentAlbumTracks.Remaining();
          assert remaining == [nextTrack.value.value] + later;
          assert old(Stream()) == Consumption.Prepend(remaining, albums);
          assert AlbumsStream() == albums && CurrentStream() == Ok(later);
          assert trackBuffer == [nextTrack.value.value] && !finished;
          assert Then(CurrentStream(), AlbumsStream()) == Consumption.Prepend(later, albums);
          assert Stream() == Consumption.Prepend([nextTrack.value.value], Consumption.Prepend(later, albums));
          Consumption.PrependTwice([nextTrack.value.value], later, albums);
        }
      } else {
        currentAlbumTracks := null;
        assert Stream() == old(Stream()) by {
          ThenEmpty(albums);
          Consumption.PrependEmpty(albums);
        }
      }
      stop := None;
    }

    /**
     * Moves on to the next album: opens the album listing if needed and
     * starts an album-tracks iterator on the next album. The end of the
     * listing finishes the iterator; an error is passed on.
     */
    method OpenNextAlbum(ghost w: Track -> nat) returns (stop: Option<Result<Option<Track>, LastFmError>>)
      requires PartsValid() && currentAlbumTracks == null && !finished && trackBuffer == []
      modifies this, albumIterator
      ensures PartsValid() && trackBuffer == []
      ensures albumIterator != null && (albumIterator == old(albumIterator) || fresh(albumIterator))
      ensures stop.None? ==> currentAlbumTracks != null && fresh(currentAlbumTracks) && !finished
      ensures stop.None? ==> Measure(w) <= old(Measure(w))
      ensures stop.Some? ==> currentAlbumTracks == null
      ensures stop.Some? && stop.value.Ok? ==> stop.value == Ok(None) && finished
      ensures stop.Some? && stop.value.Err? ==> !finished
      ensures stop.None? ==> Stream() == old(Stream())
      ensures stop.Some? && stop.value.Err? ==> old(Stream()) == Err(stop.value.error)
      ensures stop.Some? && stop.value.Ok? ==> old(Stream()) == Ok([])
    {
      ghost var start := AlbumsStream();
      if albumIterator == null {
        albumIterator := new PagedIterator(albumSource);
      }
      assert AlbumsStream() == start;
      assert old(Stream()) == start by {
        ThenEmpty(start);
        Consumption.PrependEmpty(start);
      }
      stop := TakeAlbum(w);
    }

    /** The album listing being open, moves on to its next album. */
    method TakeAlbum(ghost w: Track -> nat) returns (stop: Option<Result<Option<Track>, LastFmError>>)
      requires PartsValid() && albumIterator != null && currentAlbumTracks == null && !finished && trackBuffer == []
      modifies this, albumIterator
      ensures PartsValid() && trackBuffer == [] && albumIterator == old(albumIterator)
      ensures stop.None? ==> currentAlbumTracks != null && fresh(currentAlbumTracks) && !finished
      ensures stop.None? ==> Measure(w) <= old(Measure(w))
      ensures stop.Some? ==> currentAlbumTracks == null
      ensures stop.Some? && stop.value.Ok? ==> stop.value == Ok(None) && finished
      ensures stop.Some? && stop.value.Err? ==> !finished
      ensures stop.None? ==> Stream() == old(Stream())
      ensures stop.Some? && stop.value.Err? ==> old(AlbumsStream()) == Err(stop.value.error)
      ensures stop.Some? && stop.value.Ok? ==> old(AlbumsStream()) == Ok([])
    {
      ghost var start := AlbumsStream();
      assert old(Stream()) == start by {
        ThenEmpty(start);
        Consumption.PrependEmpty(start);
      }
      ghost var listed := albumIterator.Listing();
      assert TracksOfListing(albumTracks, listed) == start;
      var nextAlbum := albumIterator.Next(AlbumWeight(w));
      if nextAlbum.Err? {
        assert start == Then(Ok([]), Err(nextAlbum.error));
        return Some(Err(nextAlbum.error));
      }
      if nextAlbum.value.None? {
        finished := true;
        assert start == Then(Ok([]), Ok([]));
        return Some(Ok(None));
      }
      var album := nextAlbum.value.value;
      currentAlbumTracks := new AlbumTracksIterator(album.name, artist, albumTracks(album.name));
      assert Stream() == start by {
        TracksOfListingFront(albumTracks, album, albumIterator.Listing());
        assert CurrentStream() == AlbumLoad(albumTracks, album);
        Consumption.PrependEmpty(Then(CurrentStream(), AlbumsStream()));
      }
      stop := None;
    }

    /** `current_page`: the album listing's, or 0 before it is opened. */
    function CurrentPage(): nat
      reads this, albumIterator
    {
      if albumIterator != null then albumIterator.CurrentPage() else 0
    }

    /** `total_pages`: the album listing's, or none before it is opened. */
    function TotalPages(): Option<nat>
      reads this, albumIterator
    {
      if albumIterator != null then albumIterator.TotalPages() else None
    }
  }
}
