/**
 * The older `delete` command. It selects scrobbles as the current one does,
 * but prints instead of emitting events, asks for no confirmation, returns
 * before deleting anything in a dry run, and in offset mode counts a
 * scrobble without a timestamp as a failed deletion.
 *
 * A run is the list of delete calls made, in order, with the two counters.
 * The `parse_range` it imports lives in `src/commands/utils.rs`, which is not
 * part of this model; `CliUtils.ParseRange` stands in for it.
 */
module LegacyDeleteCommand {
  import opened Wrappers
  import opened LastFmTypes
  import opened CliUtils
  import opened DeleteCommand
  import DeleteFacts

  datatype LegacyRun = LegacyRun(attempted: seq<ScrobbleToDelete>, successful: nat, failed: nat, error: Option<string>)

  const NothingDone := LegacyRun([], 0, 0, None)

  /** Deleting every queued scrobble, unless there is none or it is a dry run. */
  function DeleteQueued(queue: seq<ScrobbleToDelete>, dryRun: bool, outcome: nat -> Result<bool, LastFmError>): LegacyRun {
    if queue == [] || dryRun then NothingDone
    else LegacyRun(queue, Succeeded(outcome, |queue|), Failed(outcome, |queue|), None)
  }

  /** `handle_delete_recent_pages` once the range is read. */
  function PagesRunFrom(recent: Fetch, start: nat, end: nat, dryRun: bool,
                        outcome: nat -> Result<bool, LastFmError>): LegacyRun
  {
    DeleteQueued(Queue(PagesScanned(recent, start, end)), dryRun, outcome)
  }

  function PagesRun(recent: Fetch, pagesRange: string, dryRun: bool, outcome: nat -> Result<bool, LastFmError>): LegacyRun {
    match ParseRange(pagesRange, "pages")
    case Err(msg) => LegacyRun([], 0, 0, Some(msg))
    case Ok(range) => PagesRunFrom(recent, range.0, range.1, dryRun, outcome)
  }

  /** `handle_delete_timestamp_range` once the range is read. */
  function TimestampRunFrom(recent: Fetch, start: nat, end: nat, dryRun: bool,
                            outcome: nat -> Result<bool, LastFmError>): LegacyRun
  {
    DeleteQueued(Queue(InRange(PagesScanned(recent, 1, TimestampPages), start, end)), dryRun, outcome)
  }

  function TimestampRun(recent: Fetch, timestampRange: string, dryRun: bool,
                        outcome: nat -> Result<bool, LastFmError>): LegacyRun
  {
    match ParseRange(timestampRange, "timestamp")
    case Err(msg) => LegacyRun([], 0, 0, Some(msg))
    case Ok(range) => TimestampRunFrom(recent, range.0, range.1, dryRun, outcome)
  }

  /**
   * `handle_delete_recent_offset` once the range is read: every scrobble in
   * the slice is either deleted or, lacking a timestamp, counted as failed.
   */
  function OffsetRunFrom(recent: Fetch, start: nat, end: nat, dryRun: bool,
                         outcome: nat -> Result<bool, LastFmError>): LegacyRun
    requires start <= end
  {
    var all := Collected(recent, 1, end + 1, 0);
    if |all| <= start || dryRun then NothingDone
    else
      var slice := OffsetSlice(all, start, end);
      var queue := Queue(slice);
      LegacyRun(queue, Succeeded(outcome, |queue|), Failed(outcome, |queue|) + (|slice| - |queue|), None)
  }

  function OffsetRun(recent: Fetch, offsetRange: string, dryRun: bool,
                     outcome: nat -> Result<bool, LastFmError>): LegacyRun
  {
    match ParseRange(offsetRange, "offset")
    case Err(msg) => LegacyRun([], 0, 0, Some(msg))
    case Ok(range) => OffsetRunFrom(recent, range.0, range.1, dryRun, outcome)
  }

  // ---------------------------------------------------------------------------
  // The command's loops
  // ---------------------------------------------------------------------------

  /** The deletion loop: one call per queued scrobble, counting successes and failures. */
  method DeleteEach(queue: seq<ScrobbleToDelete>, outcome: nat -> Result<bool, LastFmError>)
    returns (successful: nat, failed: nat)
    ensures successful == Succeeded(outcome, |queue|) && failed == Failed(outcome, |queue|)
  {
    successful, failed := 0, 0;
    for i := 0 to |queue|
      invariant successful == Succeeded(outcome, i) && failed == Failed(outcome, i)
    {
      match outcome(i)
      case Ok(true) => successful := successful + 1;
      case Ok(false) => failed := failed + 1;
      case Err(_) => failed := failed + 1;
    }
  }

  /** The scrobbles of one page that have a timestamp, added to the queue. */
  method QueuePage(scrobbles: seq<Track>, ghost seen: seq<Track>, queue0: seq<ScrobbleToDelete>)
    returns (queue: seq<ScrobbleToDelete>)
    requires queue0 == Queue(seen)
    ensures queue == Queue(seen + scrobbles)
  {
    queue := queue0;
    assert seen + scrobbles[..0] == seen;
    for j := 0 to |scrobbles|
      invariant queue == Queue(seen + scrobbles[..j])
    {
      var scrobble := scrobbles[j];
      ghost var before := seen + scrobbles[..j];
      assert seen + scrobbles[..j + 1] == before + [scrobble];
      FoundSnoc(before, scrobble, None);
      if scrobble.timestamp.Some? {
        queue := queue + [ScrobbleToDelete(scrobble.artist, scrobble.name, scrobble.timestamp.value)];
      }
    }
    assert scrobbles[..|scrobbles|] == scrobbles;
  }

  /** The page loop of the older `handle_delete_recent_pages`, counting every scrobble seen. */
  method ScanPages(recent: Fetch, start: nat, end: nat) returns (total: nat, queue: seq<ScrobbleToDelete>)
    ensures total == |PagesScanned(recent, start, end)| && queue == Queue(PagesScanned(recent, start, end))
  {
    ghost var all := PagesScanned(recent, start, end);
    ghost var seen: seq<Track> := [];
    total, queue := 0, [];
    var page := start;
    assert seen + all == all;
    while page <= end
      invariant seen + PagesScanned(recent, page, end) == all
      invariant total == |seen| && queue == Queue(seen)
      decreases end + 1 - page
    {
      var fetched := recent(page);
      if fetched.Err? || fetched.value == [] {
        assert seen == all by { PagesScannedMore(recent, page, end, seen, all); }
        break;
      }
      assert (seen + fetched.value) + PagesScanned(recent, page + 1, end) == all by {
        PagesScannedMore(recent, page, end, seen, all);
      }
      total := total + |fetched.value|;
      queue := QueuePage(fetched.value, seen, queue);
      seen := seen + fetched.value;
      page := page + 1;
    }
    if page > end {
      assert seen + [] == seen;
    }
    assert seen == all;
  }

  /** The older `handle_delete_recent_pages`. */
  method HandleDeleteRecentPages(recent: Fetch, pagesRange: string, dryRun: bool,
                                 outcome: nat -> Result<bool, LastFmError>) returns (r: LegacyRun)
    ensures r == PagesRun(recent, pagesRange, dryRun, outcome)
  {
    var range := ParseRange(pagesRange, "pages");
    if range.Err? {
      return LegacyRun([], 0, 0, Some(range.error));
    }
    var total, queue := ScanPages(recent, range.value.0, range.value.1);
    if queue == [] || dryRun {
      return NothingDone;
    }
    var successful, failed := DeleteEach(queue, outcome);
    r := LegacyRun(queue, successful, failed, None);
  }

  /** The queue entries of tracks that all have a timestamp. */
  method QueueAll(tracks: seq<Track>) returns (queue: seq<ScrobbleToDelete>)
    ensures queue == Queue(tracks)
  {
    queue := [];
    for i := 0 to |tracks|
      invariant queue == Queue(tracks[..i])
    {
      var scrobble := tracks[i];
      ghost var before := tracks[..i];
      assert tracks[..i + 1] == before + [scrobble];
      FoundSnoc(before, scrobble, None);
      if scrobble.timestamp.Some? {
        queue := queue + [ScrobbleToDelete(scrobble.artist, scrobble.name, scrobble.timestamp.value)];
      }
    }
    assert tracks[..|tracks|] == tracks;
  }

  /** The older `handle_delete_timestamp_range`: the same page loop over pages 1 to 20. */
  method HandleDeleteTimestampRange(recent: Fetch, timestampRange: string, dryRun: bool,
                                    outcome: nat -> Result<bool, LastFmError>) returns (r: LegacyRun)
    ensures r == TimestampRun(recent, timestampRange, dryRun, outcome)
  {
    var range := ParseRange(timestampRange, "timestamp");
    if range.Err? {
      return LegacyRun([], 0, 0, Some(range.error));
    }
    var kept := ScanTimestampRange(recent, range.value.0, range.value.1);
    var queue := QueueAll(kept);
    if queue == [] || dryRun {
      return NothingDone;
    }
    var successful, failed := DeleteEach(queue, outcome);
    r := LegacyRun(queue, successful, failed, None);
  }

  /**
   * The deletion loop of the older offset mode: a scrobble without a
   * timestamp is counted as failed and makes no call.
   */
  method DeleteSlice(slice: seq<Track>, outcome: nat -> Result<bool, LastFmError>)
    returns (attempted: seq<ScrobbleToDelete>, successful: nat, failed: nat)
    ensures attempted == Queue(slice)
    ensures successful == Succeeded(outcome, |attempted|)
    ensures failed == Failed(outcome, |attempted|) + (|slice| - |attempted|)
  {
    attempted, successful, failed := [], 0, 0;
    for i := 0 to |slice|
      invariant attempted == Queue(slice[..i])
      invariant successful == Succeeded(outcome, |attempted|)
      invariant failed == Failed(outcome, |attempted|) + (i - |attempted|)
    {
      var scrobble := slice[i];
      ghost var before := slice[..i];
      assert slice[..i + 1] == before + [scrobble];
      FoundSnoc(before, scrobble, None);
      if scrobble.timestamp.Some? {
        var result := outcome(|attempted|);
        attempted := attempted + [ScrobbleToDelete(scrobble.artist, scrobble.name, scrobble.timestamp.value)];
        if result == Ok(true) {
          successful := successful + 1;
        } else {
          failed := failed + 1;
        }
      } else {
        failed := failed + 1;
      }
    }
    assert slice[..|slice|] == slice;
  }

  /** The older `handle_delete_recent_offset` once the range is read. */
  method DeleteRecentOffset(recent: Fetch, start: nat, end: nat, dryRun: bool,
                            outcome: nat -> Result<bool, LastFmError>) returns (r: LegacyRun)
    requires start <= end
    ensures r == OffsetRunFrom(recent, start, end, dryRun, outcome)
  {
    var all := CollectRecent(recent, end + 1);
    if |all| <= start || dryRun {
      return NothingDone;
    }
    var slice := OffsetSlice(all, start, end);
    var attempted, successful, failed := DeleteSlice(slice, outcome);
    r := LegacyRun(attempted, successful, failed, None);
  }

  /** The older `handle_delete_recent_offset`. */
  method HandleDeleteRecentOffset(recent: Fetch, offsetRange: string, dryRun: bool,
                                  outcome: nat -> Result<bool, LastFmError>) returns (r: LegacyRun)
    ensures r == OffsetRun(recent, offsetRange, dryRun, outcome)
  {
    var range := ParseRange(offsetRange, "offset");
    if range.Err? {
      return LegacyRun([], 0, 0, Some(range.error));
    }
    r := DeleteRecentOffset(recent, range.value.0, range.value.1, dryRun, outcome);
  }

  // ---------------------------------------------------------------------------
  // What the runs promise
  // ---------------------------------------------------------------------------

  /**
   * Every delete call is counted once: in page and timestamp mode the
   * counters add up to the number of calls, in offset mode to the size of the
   * slice, scrobbles without a timestamp included. A dry run makes no call.
   */
  lemma CountersAddUp(recent: Fetch, start: nat, end: nat, dryRun: bool, outcome: nat -> Result<bool, LastFmError>)
    requires start <= end
    ensures var r := PagesRunFrom(recent, start, end, dryRun, outcome);
      r.successful + r.failed == |r.attempted| && (dryRun ==> r.attempted == [])
    ensures var r := TimestampRunFrom(recent, start, end, dryRun, outcome);
      r.successful + r.failed == |r.attempted| && (dryRun ==> r.attempted == [])
    ensures var r := OffsetRunFrom(recent, start, end, dryRun, outcome);
      var all := Collected(recent, 1, end + 1, 0);
      (dryRun || |all| <= start ==> r == NothingDone)
      && (!dryRun && |all| > start ==> r.successful + r.failed == |OffsetSlice(all, start, end)|)
  {
    DeleteFacts.SucceededPlusFailed(outcome, |Queue(PagesScanned(recent, start, end))|);
    DeleteFacts.SucceededPlusFailed(outcome, |Queue(InRange(PagesScanned(recent, 1, TimestampPages), start, end))|);
    var all := Collected(recent, 1, end + 1, 0);
    if |all| > start {
      DeleteFacts.SucceededPlusFailed(outcome, |Queue(OffsetSlice(all, start, end))|);
    }
  }
}
