/**
 * The `delete` command: which recent scrobbles it selects (by page range, by
 * timestamp range or by offset from the most recent) and how it reports the
 * deletions. Each run is the sequence of events the command emits.
 *
 * Collaborators are parameters: `recent(p)` is what fetching page `p` of the
 * recent scrobbles gives, `confirmation` is the user's answer to the prompt
 * (or the terminal's error text) and `outcome(i)` is what the `i`-th delete
 * call, counted from 0, returns.
 */
module DeleteCommand {
  import opened Wrappers
  import opened LastFmTypes
  import opened CliUtils

  /** One emitted event. */
  datatype DeleteEvent =
    | ScrobbleFound(index: nat, offset: Option<nat>, artist: string, track: string, timestamp: Option<nat>)
    | ScrobbleDeleted(index: nat, artist: string, track: string, deletedTimestamp: nat, success: bool, message: Option<string>)
    | Summary(totalFound: nat, successfulDeletions: nat, failedDeletions: nat, dryRun: bool)

  datatype ScrobbleToDelete = ScrobbleToDelete(artist: string, track: string, timestamp: nat)

  /** What a command run emits, and the error it ends with, if any. */
  datatype Run = Run(events: seq<DeleteEvent>, error: Option<string>)

  type Fetch = nat -> Result<seq<Track>, LastFmError>

  // ---------------------------------------------------------------------------
  // Selection
  // ---------------------------------------------------------------------------

  /**
   * The scrobbles of pages `page..=end` in order, up to the first page that is
   * empty or fails: no page after it is fetched.
   */
  function PagesScanned(recent: Fetch, page: nat, end: nat): seq<Track>
    decreases end + 1 - page
  {
    if page > end then []
    else match recent(page)
      case Err(_) => []
      case Ok(scrobbles) => if scrobbles == [] then [] else scrobbles + PagesScanned(recent, page + 1, end)
  }

  /** One step of the page walk: a failed or empty page ends it, a page with scrobbles is followed by the next. */
  lemma PagesScannedStep(recent: Fetch, page: nat, end: nat)
    requires page <= end
    ensures (recent(page).Err? || recent(page).value == []) ==> PagesScanned(recent, page, end) == []
    ensures recent(page).Ok? && recent(page).value != [] ==>
      PagesScanned(recent, page, end) == recent(page).value + PagesScanned(recent, page + 1, end)
  {
  }

  /** The walk read so far followed by the walk from `page` on is the whole walk, one page later. */
  lemma PagesScannedMore(recent: Fetch, page: nat, end: nat, seen: seq<Track>, all: seq<Track>)
    requires page <= end && seen + PagesScanned(recent, page, end) == all
    ensures (recent(page).Err? || recent(page).value == []) ==> seen == all
    ensures recent(page).Ok? && recent(page).value != [] ==>
      (seen + recent(page).value) + PagesScanned(recent, page + 1, end) == all
  {
    PagesScannedStep(recent, page, end);
    if recent(page).Ok? && recent(page).value != [] {
      var later := PagesScanned(recent, page + 1, end);
      assert (seen + recent(page).value) + later == seen + (recent(page).value + later);
    } else {
      assert seen + [] == seen;
    }
  }

  /**
   * The `ScrobbleFound` event for the track at position `i` (from 0) of a
   * selection, if it has a timestamp; `offsetBase` is the offset of the
   * selection's first track in offset mode.
   */
  function FoundAt(t: Track, i: nat, offsetBase: Option<nat>): seq<DeleteEvent> {
    if t.timestamp.Some? then
      [ScrobbleFound(i + 1, if offsetBase.Some? then Some(offsetBase.value + i) else None, t.artist, t.name, t.timestamp)]
    else []
  }

  /** The `ScrobbleFound` events of a selection, in order. */
  function Found(tracks: seq<Track>, offsetBase: Option<nat>): seq<DeleteEvent>
    decreases |tracks|
  {
    if tracks == [] then []
    else Found(tracks[..|tracks| - 1], offsetBase) + FoundAt(tracks[|tracks| - 1], |tracks| - 1, offsetBase)
  }

  function QueueAt(t: Track): seq<ScrobbleToDelete> {
    if t.timestamp.Some? then [ScrobbleToDelete(t.artist, t.name, t.timestamp.value)] else []
  }

  /** The scrobbles queued for deletion: those of a selection that have a timestamp, in order. */
  function Queue(tracks: seq<Track>): (r: seq<ScrobbleToDelete>)
    ensures |r| <= |tracks|
    decreases |tracks|
  {
    if tracks == [] then [] else Queue(tracks[..|tracks| - 1]) + QueueAt(tracks[|tracks| - 1])
  }

  predicate InTimestampRange(t: Track, start: nat, end: nat) {
    t.timestamp.Some? && start <= t.timestamp.value <= end
  }

  /** The tracks whose timestamp lies in `start..=end`, in order. */
  function InRange(tracks: seq<Track>, start: nat, end: nat): seq<Track>
    decreases |tracks|
  {
    if tracks == [] then []
    else InRange(tracks[..|tracks| - 1], start, end)
         + (if InTimestampRange(tracks[|tracks| - 1], start, end) then [tracks[|tracks| - 1]] else [])
  }

  /**
   * The scrobbles gathered from page `page` on, having `have` already, until
   * at least `needed` are held or a page is empty or fails.
   */
  function Collected(recent: Fetch, page: nat, needed: nat, have: nat): seq<Track>
    decreases if have < needed then needed - have else 0
  {
    if have >= needed then []
    else match recent(page)
      case Err(_) => []
      case Ok(scrobbles) =>
        if scrobbles == [] then [] else scrobbles + Collected(recent, page + 1, needed, have + |scrobbles|)
  }

  /** Timestamp mode looks at no more than this many pages. */
  const TimestampPages: nat := 20

  // ---------------------------------------------------------------------------
  // Deletion
  // ---------------------------------------------------------------------------

  /** The event for the `i`-th deletion and what its call returned. */
  function DeletedEvent(i: nat, s: ScrobbleToDelete, o: Result<bool, LastFmError>): (e: DeleteEvent)
    ensures e.ScrobbleDeleted? && e.index == i + 1 && e.artist == s.artist && e.track == s.track
            && e.deletedTimestamp == s.timestamp
    ensures e.success <==> o == Ok(true)
    ensures e.success <==> e.message.None?
  {
    match o
    case Ok(true) => ScrobbleDeleted(i + 1, s.artist, s.track, s.timestamp, true, None)
    case Ok(false) => ScrobbleDeleted(i + 1, s.artist, s.track, s.timestamp, false, Some("Deletion failed"))
    case Err(e) => ScrobbleDeleted(i + 1, s.artist, s.track, s.timestamp, false, Some(ErrorMessage(e)))
  }

  /** The events of the first `n` deletions. */
  function DeletedEvents(queue: seq<ScrobbleToDelete>, outcome: nat -> Result<bool, LastFmError>, n: nat): seq<DeleteEvent>
    requires n <= |queue|
  {
    if n == 0 then [] else DeletedEvents(queue, outcome, n - 1) + [DeletedEvent(n - 1, queue[n - 1], outcome(n - 1))]
  }

  /** How many of the first `n` delete calls succeeded. */
  function Succeeded(outcome: nat -> Result<bool, LastFmError>, n: nat): nat {
    if n == 0 then 0 else Succeeded(outcome, n - 1) + (if outcome(n - 1) == Ok(true) then 1 else 0)
  }

  /** How many of the first `n` delete calls failed, returning `false` or an error. */
  function Failed(outcome: nat -> Result<bool, LastFmError>, n: nat): nat {
    if n == 0 then 0 else Failed(outcome, n - 1) + (if outcome(n - 1) == Ok(true) then 0 else 1)
  }

  /** `execute_deletions`. */
  function Deletions(queue: seq<ScrobbleToDelete>, dryRun: bool, confirmation: Result<bool, string>,
                     outcome: nat -> Result<bool, LastFmError>): Run
  {
    if queue == [] then Run([Summary(0, 0, 0, dryRun)], None)
    else if dryRun then Run([Summary(|queue|, 0, 0, true)], None)
    else match confirmation
      case Err(msg) => Run([], Some(msg))
      case Ok(false) => Run([Summary(|queue|, 0, 0, false)], None)
      case Ok(true) =>
        Run(DeletedEvents(queue, outcome, |queue|)
            + [Summary(|queue|, Succeeded(outcome, |queue|), Failed(outcome, |queue|), false)], None)
  }

  /** The found events of a selection, then what the deletions emit. */
  function AfterFound(found: seq<DeleteEvent>, run: Run): Run {
    Run(found + run.events, run.error)
  }

  /** `handle_delete_recent_pages` once the range is read: pages `start..=end`. */
  function PagesRunFrom(recent: Fetch, start: nat, end: nat, dryRun: bool, confirmation: Result<bool, string>,
                        outcome: nat -> Result<bool, LastFmError>): Run
  {
    var scanned := PagesScanned(recent, start, end);
    AfterFound(Found(scanned, None), Deletions(Queue(scanned), dryRun, confirmation, outcome))
  }

  /** `handle_delete_recent_pages`: a range that does not read is the command's error. */
  function PagesRun(recent: Fetch, pagesRange: string, dryRun: bool, confirmation: Result<bool, string>,
                    outcome: nat -> Result<bool, LastFmError>): Run
  {
    match ParseRange(pagesRange, "pages")
    case Err(msg) => Run([], Some(msg))
    case Ok(range) => PagesRunFrom(recent, range.0, range.1, dryRun, confirmation, outcome)
  }

  /** `handle_delete_timestamp_range` once the range is read: timestamps `start..=end` on pages 1 to 20. */
  function TimestampRunFrom(recent: Fetch, start: nat, end: nat, dryRun: bool, confirmation: Result<bool, string>,
                            outcome: nat -> Result<bool, LastFmError>): Run
  {
    var kept := InRange(PagesScanned(recent, 1, TimestampPages), start, end);
    AfterFound(Found(kept, None), Deletions(Queue(kept), dryRun, confirmation, outcome))
  }

  /** `handle_delete_timestamp_range`. */
  function TimestampRun(recent: Fetch, timestampRange: string, dryRun: bool, confirmation: Result<bool, string>,
                        outcome: nat -> Result<bool, LastFmError>): Run
  {
    match ParseRange(timestampRange, "timestamp")
    case Err(msg) => Run([], Some(msg))
    case Ok(range) => TimestampRunFrom(recent, range.0, range.1, dryRun, confirmation, outcome)
  }

  /** The offsets `start..=min(end, |all| - 1)` of the collected scrobbles. */
  function OffsetSlice(all: seq<Track>, start: nat, end: nat): seq<Track>
    requires start <= end && start < |all|
  {
    all[start..(if end < |all| - 1 then end else |all| - 1) + 1]
  }

  /**
   * `handle_delete_recent_offset` once the range is read: offsets
   * `start..=end`, counted from 0 at the most recent scrobble. Too few
   * scrobbles gives an empty summary.
   */
  function OffsetRunFrom(recent: Fetch, start: nat, end: nat, dryRun: bool, confirmation: Result<bool, string>,
                         outcome: nat -> Result<bool, LastFmError>): Run
    requires start <= end
  {
    var all := Collected(recent, 1, end + 1, 0);
    if |all| <= start then Run([Summary(0, 0, 0, dryRun)], None)
    else
      var slice := OffsetSlice(all, start, end);
      AfterFound(Found(slice, Some(start)), Deletions(Queue(slice), dryRun, confirmation, outcome))
  }

  /** `handle_delete_recent_offset`. */
  function OffsetRun(recent: Fetch, offsetRange: string, dryRun: bool, confirmation: Result<bool, string>,
                     outcome: nat -> Result<bool, LastFmError>): Run
  {
    match ParseRange(offsetRange, "offset")
    case Err(msg) => Run([], Some(msg))
    case Ok(range) => OffsetRunFrom(recent, range.0, range.1, dryRun, confirmation, outcome)
  }

  // ---------------------------------------------------------------------------
  // The command's loops
  // ---------------------------------------------------------------------------

  /**
   * One more track scanned adds what that track contributes: its found event
   * to the found list and, if it has a timestamp, its entry to the queue.
   */
  lemma SelectStep(tracks: seq<Track>, i: nat, offsetBase: Option<nat>)
    requires i < |tracks|
    ensures Found(tracks[..i + 1], offsetBase) == Found(tracks[..i], offsetBase) + FoundAt(tracks[i], i, offsetBase)
    ensures Queue(tracks[..i + 1]) == Queue(tracks[..i]) + QueueAt(tracks[i])
  {
    assert tracks[..i + 1] == tracks[..i] + [tracks[i]];
    FoundSnoc(tracks[..i], tracks[i], offsetBase);
  }

  lemma FoundSnoc(seen: seq<Track>, t: Track, offsetBase: Option<nat>)
    ensures Found(seen + [t], offsetBase) == Found(seen, offsetBase) + FoundAt(t, |seen|, offsetBase)
    ensures Queue(seen + [t]) == Queue(seen) + QueueAt(t)
  {
    assert (seen + [t])[..|seen|] == seen;
  }

  /** `execute_deletions`, deleting one scrobble at a time and counting. */
  method ExecuteDeletions(queue: seq<ScrobbleToDelete>, dryRun: bool, confirmation: Result<bool, string>,
                          outcome: nat -> Result<bool, LastFmError>) returns (r: Run)
    ensures r == Deletions(queue, dryRun, confirmation, outcome)
  {
    if queue == [] {
      return Run([Summary(0, 0, 0, dryRun)], None);
    }
    if dryRun {
      return Run([Summary(|queue|, 0, 0, true)], None);
    }
    if confirmation.Err? {
      return Run([], Some(confirmation.error));
    }
    if !confirmation.value {
      return Run([Summary(|queue|, 0, 0, false)], None);
    }
    var events: seq<DeleteEvent> := [];
    var successful := 0;
    var failed := 0;
    for i := 0 to |queue|
      invariant events == DeletedEvents(queue, outcome, i)
      invariant successful == Succeeded(outcome, i) && failed == Failed(outcome, i)
    {
      var s := queue[i];
      match outcome(i)
      case Ok(true) =>
        successful := successful + 1;
        events := events + [ScrobbleDeleted(i + 1, s.artist, s.track, s.timestamp, true, None)];
      case Ok(false) =>
        failed := failed + 1;
        events := events + [ScrobbleDeleted(i + 1, s.artist, s.track, s.timestamp, false, Some("Deletion failed"))];
      case Err(e) =>
        failed := failed + 1;
        events := events + [ScrobbleDeleted(i + 1, s.artist, s.track, s.timestamp, false, Some(ErrorMessage(e)))];
    }
    r := Run(events + [Summary(|queue|, successful, failed, false)], None);
  }

  /** The scrobbles of one fetched page, added to a selection one at a time. */
  method TakePage(scrobbles: seq<Track>, ghost seen: seq<Track>, index0: nat,
                  found0: seq<DeleteEvent>, queue0: seq<ScrobbleToDelete>)
    returns (index: nat, found: seq<DeleteEvent>, queue: seq<ScrobbleToDelete>)
    requires index0 == |seen| && found0 == Found(seen, None) && queue0 == Queue(seen)
    ensures index == |seen| + |scrobbles|
    ensures found == Found(seen + scrobbles, None) && queue == Queue(seen + scrobbles)
  {
    found, queue := found0, queue0;
    index := index0;
    ghost var scanned := seen;
    for j := 0 to |scrobbles|
      invariant scanned == seen + scrobbles[..j] && index == |scanned|
      invariant found == Found(scanned, None) && queue == Queue(scanned)
    {
      var scrobble := scrobbles[j];
      FoundSnoc(scanned, scrobble, None);
      if scrobble.timestamp.Some? {
        var event := ScrobbleFound(index + 1, None, scrobble.artist, scrobble.name, scrobble.timestamp);
        var entry := ScrobbleToDelete(scrobble.artist, scrobble.name, scrobble.timestamp.value);
        assert [event] == FoundAt(scrobble, |scanned|, None) && [entry] == QueueAt(scrobble);
        found := found + [event];
        queue := queue + [entry];
      }
      index := index + 1;
      assert scrobbles[..j + 1] == scrobbles[..j] + [scrobble];
      scanned := scanned + [scrobble];
    }
    assert scrobbles[..|scrobbles|] == scrobbles;
  }

  /**
   * The found events and the queue of a selection: each scrobble is numbered
   * from 1 by its place in the selection, and those without a timestamp are
   * skipped.
   */
  method Select(tracks: seq<Track>, offsetBase: Option<nat>) returns (found: seq<DeleteEvent>, queue: seq<ScrobbleToDelete>)
    ensures found == Found(tracks, offsetBase) && queue == Queue(tracks)
  {
    found, queue := [], [];
    for i := 0 to |tracks|
      invariant found == Found(tracks[..i], offsetBase) && queue == Queue(tracks[..i])
    {
      var scrobble := tracks[i];
      SelectStep(tracks, i, offsetBase);
      if scrobble.timestamp.Some? {
        var offset := if offsetBase.Some? then Some(offsetBase.value + i) else None;
        var event := ScrobbleFound(i + 1, offset, scrobble.artist, scrobble.name, scrobble.timestamp);
        var entry := ScrobbleToDelete(scrobble.artist, scrobble.name, scrobble.timestamp.value);
        assert [event] == FoundAt(scrobble, i, offsetBase) && [entry] == QueueAt(scrobble);
        found := found + [event];
        queue := queue + [entry];
      } else {
        assert FoundAt(scrobble, i, offsetBase) == [] && QueueAt(scrobble) == [];
      }
    }
    assert tracks[..|tracks|] == tracks;
  }

  /**
   * The page loop of `handle_delete_recent_pages`: each scrobble of a fetched
   * page is numbered and, if it has a timestamp, found and queued.
   */
  method ScanPages(recent: Fetch, start: nat, end: nat) returns (found: seq<DeleteEvent>, queue: seq<ScrobbleToDelete>)
    ensures found == Found(PagesScanned(recent, start, end), None)
    ensures queue == Queue(PagesScanned(recent, start, end))
  {
    ghost var all := PagesScanned(recent, start, end);
    ghost var seen: seq<Track> := [];
    found, queue := [], [];
    var index := 0;
    var page := start;
    assert seen + all == all;
    while page <= end
      invariant seen + PagesScanned(recent, page, end) == all
      invariant Selected(seen, index, found, queue)
      decreases end + 1 - page
    {
      var more;
      more, index, found, queue, seen := ScanPage(recent, page, end, seen, all, index, found, queue);
      if !more {
        break;
      }
      page := page + 1;
    }
    if page > end {
      assert seen + [] == seen;
    }
    assert seen == all;
  }

  /** `index`, `found` and `queue` are what numbering the scrobbles `seen` gives. */
  ghost predicate Selected(seen: seq<Track>, index: nat, found: seq<DeleteEvent>, queue: seq<ScrobbleToDelete>) {
    index == |seen| && found == Found(seen, None) && queue == Queue(seen)
  }

  /** One page of the walk: a page with scrobbles is numbered and taken; a failed or empty page ends the walk. */
  method ScanPage(recent: Fetch, page: nat, end: nat, ghost seen: seq<Track>, ghost all: seq<Track>,
                  index0: nat, found0: seq<DeleteEvent>, queue0: seq<ScrobbleToDelete>)
    returns (more: bool, index: nat, found: seq<DeleteEvent>, queue: seq<ScrobbleToDelete>, ghost taken: seq<Track>)
    requires page <= end && seen + PagesScanned(recent, page, end) == all
    requires Selected(seen, index0, found0, queue0)
    ensures Selected(taken, index, found, queue)
    ensures !more ==> taken == all
    ensures more ==> taken + PagesScanned(recent, page + 1, end) == all
  {
    var fetched := recent(page);
    PagesScannedMore(recent, page, end, seen, all);
    if fetched.Err? || fetched.value == [] {
      return false, index0, found0, queue0, seen;
    }
    index, found, queue := TakePage(fetched.value, seen, index0, found0, queue0);
    more, taken := true, seen + fetched.value;
  }

  /** `handle_delete_recent_pages` once the range is read. */
  method DeleteRecentPages(recent: Fetch, start: nat, end: nat, dryRun: bool, confirmation: Result<bool, string>,
                           outcome: nat -> Result<bool, LastFmError>) returns (r: Run)
    ensures r == PagesRunFrom(recent, start, end, dryRun, confirmation, outcome)
  {
    var found, queue := ScanPages(recent, start, end);
    var deletions := ExecuteDeletions(queue, dryRun, confirmation, outcome);
    r := AfterFound(found, deletions);
  }

  /** `handle_delete_recent_pages`. */
  method HandleDeleteRecentPages(recent: Fetch, pagesRange: string, dryRun: bool, confirmation: Result<bool, string>,
                                 outcome: nat -> Result<bool, LastFmError>) returns (r: Run)
    ensures r == PagesRun(recent, pagesRange, dryRun, confirmation, outcome)
  {
    var range := ParseRange(pagesRange, "pages");
    if range.Err? {
      return Run([], Some(range.error));
    }
    r := DeleteRecentPages(recent, range.value.0, range.value.1, dryRun, confirmation, outcome);
  }

  /** The page loop of `handle_delete_timestamp_range`: pages 1 to 20, keeping the scrobbles in range. */
  method ScanTimestampRange(recent: Fetch, start: nat, end: nat) returns (kept: seq<Track>)
    ensures kept == InRange(PagesScanned(recent, 1, TimestampPages), start, end)
  {
    kept := ScanPagesInRange(recent, 1, TimestampPages, start, end);
  }

  /** Pages `first` to `last`, read until one fails or is empty, keeping the scrobbles in range. */
  method ScanPagesInRange(recent: Fetch, first: nat, last: nat, start: nat, end: nat) returns (kept: seq<Track>)
    ensures kept == InRange(PagesScanned(recent, first, last), start, end)
  {
    ghost var seen: seq<Track> := [];
    kept := [];
    var page := first;
    while page <= last
      invariant seen + PagesScanned(recent, page, last) == PagesScanned(recent, first, last)
      invariant kept == InRange(seen, start, end)
      decreases last + 1 - page
    {
      var fetched := recent(page);
      PagesScannedStep(recent, page, last);
      if fetched.Err? || fetched.value == [] {
        break;
      }
      kept := KeepInRange(fetched.value, seen, start, end, kept);
      seen := seen + fetched.value;
      page := page + 1;
    }
    assert PagesScanned(recent, page, last) == [];
    assert seen + [] == seen;
  }

  /** The scrobbles of one page whose timestamp is in range, added to those kept. */
  method KeepInRange(scrobbles: seq<Track>, ghost seen: seq<Track>, start: nat, end: nat, kept0: seq<Track>)
    returns (kept: seq<Track>)
    requires kept0 == InRange(seen, start, end)
    ensures kept == InRange(seen + scrobbles, start, end)
  {
    kept := kept0;
    assert seen + scrobbles[..0] == seen;
    for j := 0 to |scrobbles|
      invariant kept == InRange(seen + scrobbles[..j], start, end)
    {
      var scrobble := scrobbles[j];
      ghost var before := seen + scrobbles[..j];
      assert seen + scrobbles[..j + 1] == before + [scrobble];
      assert (before + [scrobble])[..|before|] == before;
      if scrobble.timestamp.Some? && start <= scrobble.timestamp.value <= end {
        kept := kept + [scrobble];
      }
    }
    assert scrobbles[..|scrobbles|] == scrobbles;
  }

  /** `handle_delete_timestamp_range` once the range is read. */
  method DeleteTimestampRange(recent: Fetch, start: nat, end: nat, dryRun: bool, confirmation: Result<bool, string>,
                              outcome: nat -> Result<bool, LastFmError>) returns (r: Run)
    ensures r == TimestampRunFrom(recent, start, end, dryRun, confirmation, outcome)
  {
    var kept := ScanTimestampRange(recent, start, end);
    var found, queue := Select(kept, None);
    var deletions := ExecuteDeletions(queue, dryRun, confirmation, outcome);
    r := AfterFound(found, deletions);
  }

  /** `handle_delete_timestamp_range`. */
  method HandleDeleteTimestampRange(recent: Fetch, timestampRange: string, dryRun: bool,
                                    confirmation: Result<bool, string>,
                                    outcome: nat -> Result<bool, LastFmError>) returns (r: Run)
    ensures r == TimestampRun(recent, timestampRange, dryRun, confirmation, outcome)
  {
    var range := ParseRange(timestampRange, "timestamp");
    if range.Err? {
      return Run([], Some(range.error));
    }
    r := DeleteTimestampRange(recent, range.value.0, range.value.1, dryRun, confirmation, outcome);
  }

  /** Gathering pages until `needed` scrobbles are held or a page is empty or fails. */
  method CollectRecent(recent: Fetch, needed: nat) returns (all: seq<Track>)
    ensures all == Collected(recent, 1, needed, 0)
  {
    all := [];
    var page := 1;
    while |all| < needed
      invariant all + Collected(recent, page, needed, |all|) == Collected(recent, 1, needed, 0)
      decreases needed - |all|
    {
      var fetched := recent(page);
      if fetched.Err? || fetched.value == [] {
        assert all == Collected(recent, 1, needed, 0);
        break;
      }
      all := all + fetched.value;
      page := page + 1;
      if |all| >= needed {
        break;
      }
    }
  }

  /** The selection of `handle_delete_recent_offset`, then the deletions. */
  method DeleteRecentOffset(recent: Fetch, start: nat, end: nat, dryRun: bool, confirmation: Result<bool, string>,
                            outcome: nat -> Result<bool, LastFmError>) returns (r: Run)
    requires start <= end
    ensures r == OffsetRunFrom(recent, start, end, dryRun, confirmation, outcome)
  {
    var all := CollectRecent(recent, end + 1);
    if |all| <= start {
      return Run([Summary(0, 0, 0, dryRun)], None);
    }
    var slice := OffsetSlice(all, start, end);
    var found, queue := Select(slice, Some(start));
    var deletions := ExecuteDeletions(queue, dryRun, confirmation, outcome);
    r := AfterFound(found, deletions);
  }

  /** `handle_delete_recent_offset`. */
  method HandleDeleteRecentOffset(recent: Fetch, offsetRange: string, dryRun: bool,
                                  confirmation: Result<bool, string>,
                                  outcome: nat -> Result<bool, LastFmError>) returns (r: Run)
    ensures r == OffsetRun(recent, offsetRange, dryRun, confirmation, outcome)
  {
    var range := ParseRange(offsetRange, "offset");
    if range.Err? {
      return Run([], Some(range.error));
    }
    r := DeleteRecentOffset(recent, range.value.0, range.value.1, dryRun, confirmation, outcome);
  }
}
