/**
 * The older `search` command: the same offset, skip and limit handling as
 * the current one over 50-result pages, printing lines instead of emitting
 * events. A line is modelled by what it says, not by its formatting; the
 * verbose detail lines are not modelled.
 */
module LegacySearchCommand {
  import opened Wrappers
  import opened LastFmTypes
  import opened SearchCommand
  import opened Consumption

  /** Results per page assumed by the older command. */
  const LegacyItemsPerPage: nat := 50

  datatype Line<T> =
      /** The opening line; it names result `offset + 1` when `offset > 0`. */
    | Searching(searchType: string, query: string, startingFrom: Option<nat>)
    | Result(number: nat, item: T)
    | NoneFound(searchType: string, query: string)
    | Displayed(count: nat)
    | StartingFrom(number: nat)
    | LimitedTo(limit: nat)

  /** The lines printed, and the iterator error returned, if any. */
  datatype LegacyRun<T> = LegacyRun(lines: seq<Line<T>>, error: Option<LastFmError>)

  function ResultLines<T>(shown: seq<T>, offset: nat): seq<Line<T>> {
    seq(|shown|, k requires 0 <= k < |shown| => Result(offset + k + 1, shown[k]))
  }

  /** The lines after the results. */
  function Closing<T>(name: string, query: string, limit: nat, offset: nat, displayed: nat): seq<Line<T>> {
    if displayed == 0 then [NoneFound(name, query)]
    else
      [Displayed(displayed)]
      + (if offset > 0 then [StartingFrom(offset + 1)] else [])
      + (if limit > 0 && displayed >= limit then [LimitedTo(limit)] else [])
  }

  /** `handle_search_command` of the older command. */
  function LegacySearch<T>(searchType: SearchType, query: string, limit: nat, offset: nat,
                           source: nat -> Stream<T, LastFmError>): LegacyRun<T>
  {
    var name := TypeName(searchType);
    var stream := source(StartingPage(offset, LegacyItemsPerPage));
    var within := WithinPageOffset(offset, LegacyItemsPerPage);
    var shown := Shown(stream.items, within, limit);
    var opening := Searching(name, query, if offset > 0 then Some(offset + 1) else None);
    var lines := [opening] + ResultLines(shown, offset);
    if ReadsToEnd(|stream.items|, within, limit) && stream.error.Some? then LegacyRun(lines, stream.error)
    else LegacyRun(lines + Closing(name, query, limit, offset, |shown|), None)
  }

  /** `handle_search_command` of the older command. */
  method HandleLegacySearchCommand<T>(searchType: SearchType, query: string, limit: nat, offset: nat,
                                      source: nat -> Stream<T, LastFmError>) returns (run: LegacyRun<T>)
    ensures run == LegacySearch(searchType, query, limit, offset, source)
  {
    var name := TypeName(searchType);
    var startingPage := if offset > 0 then offset / LegacyItemsPerPage + 1 else 1;
    var within := offset % LegacyItemsPerPage;
    var opening := Searching(name, query, if offset > 0 then Some(offset + 1) else None);
    var stream := source(startingPage);
    var results, reachedLimit := PrintResults(stream.items, within, limit, offset);
    var lines := [opening] + results;
    if !reachedLimit && stream.error.Some? {
      return LegacyRun(lines, stream.error);
    }
    var displayed := |results|;
    var closing: seq<Line<T>>;
    if displayed == 0 {
      closing := [NoneFound(name, query)];
    } else {
      closing := [Displayed(displayed)];
      if offset > 0 {
        closing := closing + [StartingFrom(offset + 1)];
      }
      if limit > 0 && displayed >= limit {
        closing := closing + [LimitedTo(limit)];
      }
    }
    run := LegacyRun(lines + closing, None);
  }

  /** The loop: skip `within` results, print the rest numbered from `offset + 1`, stop at `limit` when it is positive. */
  method PrintResults<T>(items: seq<T>, within: nat, limit: nat, offset: nat)
    returns (results: seq<Line<T>>, reachedLimit: bool)
    ensures results == ResultLines(Shown(items, within, limit), offset)
    ensures reachedLimit <==> !ReadsToEnd(|items|, within, limit)
  {
    results := [];
    reachedLimit := false;
    var totalCount := 0;
    var displayed := 0;
    while totalCount < |items|
      invariant totalCount <= |items|
      invariant displayed == if totalCount <= within then 0 else totalCount - within
      invariant |results| == displayed
      invariant forall k :: 0 <= k < displayed ==> results[k] == Result(offset + k + 1, items[within + k])
      invariant !(limit > 0 && displayed >= limit)
    {
      var item := items[totalCount];
      totalCount := totalCount + 1;
      if totalCount <= within {
        continue;
      }
      displayed := displayed + 1;
      results := results + [Result(offset + displayed, item)];
      if limit > 0 && displayed >= limit {
        reachedLimit := true;
        break;
      }
    }
    ghost var shown := Shown(items, within, limit);
    assert |shown| == displayed;
    assert forall k :: 0 <= k < displayed ==> shown[k] == items[within + k];
  }

  /**
   * Results are numbered consecutively from `offset + 1`, at most `limit`
   * with a limit; "limited" is reported exactly when the limit was reached,
   * and "no results" exactly when nothing was shown.
   */
  lemma LegacySearchFacts<T>(searchType: SearchType, query: string, limit: nat, offset: nat, source: nat -> Stream<T, LastFmError>)
    ensures var r := LegacySearch(searchType, query, limit, offset, source);
      var name := TypeName(searchType);
      var shown := Shown(source(StartingPage(offset, LegacyItemsPerPage)).items,
                         WithinPageOffset(offset, LegacyItemsPerPage), limit);
      && |r.lines| >= 1 + |shown|
      && (forall k :: 1 <= k <= |shown| ==> r.lines[k] == Result(offset + k, shown[k - 1]))
      && (limit > 0 ==> |shown| <= limit)
      && (r.error.None? ==>
            (LimitedTo(limit) in r.lines <==> limit > 0 && |shown| == limit)
            && (NoneFound(name, query) in r.lines <==> shown == []))
  {
    var r := LegacySearch(searchType, query, limit, offset, source);
    var name := TypeName(searchType);
    var shown := Shown(source(StartingPage(offset, LegacyItemsPerPage)).items,
                       WithinPageOffset(offset, LegacyItemsPerPage), limit);
    var head := [Searching(name, query, if offset > 0 then Some(offset + 1) else None)] + ResultLines(shown, offset);
    assert forall k :: 0 <= k < |head| ==> !head[k].LimitedTo? && !head[k].NoneFound?;
    if r.error.None? {
      var closing := Closing(name, query, limit, offset, |shown|);
      assert r.lines == head + closing;
      if limit > 0 && |shown| == limit {
        assert closing[|closing| - 1] == LimitedTo(limit);
        assert r.lines[|r.lines| - 1] == LimitedTo(limit);
      }
      if shown == [] {
        assert r.lines[|head|] == NoneFound(name, query);
      }
    }
  }

  /** With 50-result pages, the starting page and skip still locate result `offset + 1`. */
  lemma LegacyPagePosition(offset: nat)
    ensures var page := StartingPage(offset, LegacyItemsPerPage);
      page >= 1 && (page - 1) * 50 + WithinPageOffset(offset, LegacyItemsPerPage) == offset
      && WithinPageOffset(offset, LegacyItemsPerPage) < 50
  {
    PagePosition(offset, LegacyItemsPerPage);
  }
}
