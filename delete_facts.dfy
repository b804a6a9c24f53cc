/**
 * What the `delete` command's runs promise: the found events describe the
 * selected scrobbles that have a timestamp, numbered by their place in the
 * selection; paging stops at the first empty or failed page; offsets stay in
 * the requested range; and the final summary counts the deletions, which add
 * up to the number attempted. A dry run deletes nothing.
 */
module DeleteFacts {
  import opened Wrappers
  import opened LastFmTypes
  import opened CliUtils
  import opened DeleteCommand

  /** The number an event carries; a summary has none. */
  function EventIndex(e: DeleteEvent): nat {
    if e.Summary? then 0 else e.index
  }

  /** A found event describes the selection's track at its `index` (from 1) and the matching queue entry. */
  predicate Describes(e: DeleteEvent, q: ScrobbleToDelete, tracks: seq<Track>, offsetBase: Option<nat>) {
    e.ScrobbleFound? && 1 <= e.index <= |tracks|
    && var t := tracks[e.index - 1];
    t.timestamp.Some? && e.artist == t.artist && e.track == t.name && e.timestamp == t.timestamp
    && q == ScrobbleToDelete(t.artist, t.name, t.timestamp.value)
    && e.offset == (if offsetBase.Some? then Some(offsetBase.value + e.index - 1) else None)
  }

  /**
   * Each found event, paired with the queue entry at the same place, stands
   * for a selected track with a timestamp; the events come in the order of
   * the selection.
   */
  lemma {:induction false} FoundSound(tracks: seq<Track>, offsetBase: Option<nat>)
    ensures |Found(tracks, offsetBase)| == |Queue(tracks)|
    ensures forall k :: 0 <= k < |Found(tracks, offsetBase)| ==>
      Describes(Found(tracks, offsetBase)[k], Queue(tracks)[k], tracks, offsetBase)
    ensures forall k, l :: 0 <= k < l < |Found(tracks, offsetBase)| ==>
      EventIndex(Found(tracks, offsetBase)[k]) < EventIndex(Found(tracks, offsetBase)[l])
    decreases |tracks|
  {
    if tracks != [] {
      var init := tracks[..|tracks| - 1];
      FoundSound(init, offsetBase);
      var found, queue := Found(init, offsetBase), Queue(init);
      forall k | 0 <= k < |found| ensures Describes(found[k], queue[k], tracks, offsetBase) {
        assert Describes(found[k], queue[k], init, offsetBase);
        assert tracks[found[k].index - 1] == init[found[k].index - 1];
      }
    }
  }

  /** Every selected track with a timestamp has a found event. */
  lemma {:induction false} FoundComplete(tracks: seq<Track>, offsetBase: Option<nat>)
    ensures forall i :: 0 <= i < |tracks| && tracks[i].timestamp.Some? ==>
      exists k :: 0 <= k < |Found(tracks, offsetBase)| && EventIndex(Found(tracks, offsetBase)[k]) == i + 1
    decreases |tracks|
  {
    if tracks != [] {
      var init := tracks[..|tracks| - 1];
      FoundComplete(init, offsetBase);
      var found := Found(tracks, offsetBase);
      var last := tracks[|tracks| - 1];
      assert found == Found(init, offsetBase) + FoundAt(last, |tracks| - 1, offsetBase);
      forall i | 0 <= i < |tracks| && tracks[i].timestamp.Some?
        ensures exists k :: 0 <= k < |found| && EventIndex(found[k]) == i + 1
      {
        if i < |init| {
          assert init[i] == tracks[i];
          var k :| 0 <= k < |Found(init, offsetBase)| && EventIndex(Found(init, offsetBase)[k]) == i + 1;
          assert found[k] == Found(init, offsetBase)[k];
        } else {
          assert i == |tracks| - 1 && last.timestamp.Some?;
          assert EventIndex(found[|found| - 1]) == i + 1;
        }
      }
      assert found == Found(tracks, offsetBase);
    }
  }

  /** Timestamp mode keeps exactly the tracks with a timestamp in the range. */
  lemma {:induction false} InRangeFacts(tracks: seq<Track>, start: nat, end: nat)
    ensures forall t :: t in InRange(tracks, start, end) <==> t in tracks && InTimestampRange(t, start, end)
    decreases |tracks|
  {
    if tracks != [] {
      var init := tracks[..|tracks| - 1];
      InRangeFacts(init, start, end);
      assert tracks == init + [tracks[|tracks| - 1]];
    }
  }

  /**
   * No page after the first empty or failed one is fetched: how later pages
   * would answer makes no difference.
   */
  lemma {:induction false} PagesScannedStopsAt(recent: Fetch, other: Fetch, page: nat, end: nat, q: nat)
    requires page <= q && (recent(q).Err? || recent(q) == Ok([]))
    requires forall p :: page <= p <= q ==> other(p) == recent(p)
    ensures PagesScanned(other, page, end) == PagesScanned(recent, page, end)
    decreases end + 1 - page
  {
    if page <= end && page < q && recent(page).Ok? && recent(page).value != [] {
      PagesScannedStopsAt(recent, other, page + 1, end, q);
    }
  }

  /** Every scanned scrobble comes from a fetched page in the range. */
  lemma {:induction false} PagesScannedFromPages(recent: Fetch, page: nat, end: nat)
    ensures forall t :: t in PagesScanned(recent, page, end) ==>
      exists p :: page <= p <= end && recent(p).Ok? && t in recent(p).value
    decreases end + 1 - page
  {
    if page <= end && recent(page).Ok? && recent(page).value != [] {
      PagesScannedFromPages(recent, page + 1, end);
    }
  }

  /** While pages keep coming, offset mode collects at least the scrobbles it needs. */
  lemma {:induction false} CollectedEnough(recent: Fetch, page: nat, needed: nat, have: nat)
    requires forall p :: p >= page ==> recent(p).Ok? && recent(p).value != []
    ensures have + |Collected(recent, page, needed, have)| >= needed
    decreases if have < needed then needed - have else 0
  {
    if have < needed {
      CollectedEnough(recent, page + 1, needed, have + |recent(page).value|);
    }
  }

  /**
   * In offset mode every found event carries an offset in the requested
   * range, below the number of scrobbles collected, and describes the
   * scrobble at that offset.
   */
  lemma OffsetsInRange(all: seq<Track>, start: nat, end: nat)
    requires start <= end && start < |all|
    ensures forall e :: e in Found(OffsetSlice(all, start, end), Some(start)) ==>
      e.ScrobbleFound? && e.offset.Some? && start <= e.offset.value <= end && e.offset.value < |all|
      && all[e.offset.value].artist == e.artist && all[e.offset.value].name == e.track
      && all[e.offset.value].timestamp == e.timestamp
  {
    var slice := OffsetSlice(all, start, end);
    FoundSound(slice, Some(start));
    var found := Found(slice, Some(start));
    forall e | e in found
      ensures e.ScrobbleFound? && e.offset.Some? && start <= e.offset.value <= end && e.offset.value < |all|
              && all[e.offset.value].artist == e.artist && all[e.offset.value].name == e.track
              && all[e.offset.value].timestamp == e.timestamp
    {
      var k :| 0 <= k < |found| && found[k] == e;
      assert Describes(e, Queue(slice)[k], slice, Some(start));
      assert slice[e.index - 1] == all[start + e.index - 1];
    }
  }

  /** The number of deletion events with the given success. */
  function CountDeleted(events: seq<DeleteEvent>, success: bool): nat
    decreases |events|
  {
    if events == [] then 0
    else
      var last := events[|events| - 1];
      CountDeleted(events[..|events| - 1], success) + (if last.ScrobbleDeleted? && last.success == success then 1 else 0)
  }

  /** Every delete call either succeeds or fails. */
  lemma {:induction false} SucceededPlusFailed(outcome: nat -> Result<bool, LastFmError>, n: nat)
    ensures Succeeded(outcome, n) + Failed(outcome, n) == n
  {
    if n > 0 {
      SucceededPlusFailed(outcome, n - 1);
    }
  }

  /** The first `n` deletions emit one event each, in queue order and numbered from 1. */
  lemma {:induction false} DeletedEventsInOrder(queue: seq<ScrobbleToDelete>, outcome: nat -> Result<bool, LastFmError>, n: nat)
    requires n <= |queue|
    ensures |DeletedEvents(queue, outcome, n)| == n
    ensures forall i :: 0 <= i < n ==> DeletedEvents(queue, outcome, n)[i] == DeletedEvent(i, queue[i], outcome(i))
  {
    if n > 0 {
      DeletedEventsInOrder(queue, outcome, n - 1);
    }
  }

  /** The counters agree with the success flags of the deletion events. */
  lemma {:induction false} DeletedEventsCounted(queue: seq<ScrobbleToDelete>, outcome: nat -> Result<bool, LastFmError>, n: nat)
    requires n <= |queue|
    ensures CountDeleted(DeletedEvents(queue, outcome, n), true) == Succeeded(outcome, n)
    ensures CountDeleted(DeletedEvents(queue, outcome, n), false) == Failed(outcome, n)
  {
    if n > 0 {
      DeletedEventsCounted(queue, outcome, n - 1);
      var events := DeletedEvents(queue, outcome, n);
      var e := DeletedEvent(n - 1, queue[n - 1], outcome(n - 1));
      assert events == DeletedEvents(queue, outcome, n - 1) + [e];
      assert events[..|events| - 1] == DeletedEvents(queue, outcome, n - 1);
    }
  }

  /** The deletions are carried out: there is something to delete, it is not a dry run and the user agreed. */
  predicate Executed(queue: seq<ScrobbleToDelete>, dryRun: bool, confirmation: Result<bool, string>) {
    queue != [] && !dryRun && confirmation == Ok(true)
  }

  /**
   * `execute_deletions` ends in an error only when the prompt cannot be
   * read. Otherwise it ends with a summary of the queue's size and the given
   * dry-run flag, whose counters are the numbers of successful and failed
   * deletion events and add up to the queue's size when the deletions were
   * carried out, and to 0 otherwise; there are deletion events only then,
   * one per queued scrobble in order.
   */
  lemma DeletionsFacts(queue: seq<ScrobbleToDelete>, dryRun: bool, confirmation: Result<bool, string>,
                       outcome: nat -> Result<bool, LastFmError>)
    ensures var run := Deletions(queue, dryRun, confirmation, outcome);
      (run.error.Some? <==> queue != [] && !dryRun && confirmation.Err?)
      && (run.error.None? ==>
            run.events != [] && run.events[|run.events| - 1].Summary?
            && var summary := run.events[|run.events| - 1];
            summary.totalFound == |queue| && summary.dryRun == dryRun
            && summary.successfulDeletions == CountDeleted(run.events, true)
            && summary.failedDeletions == CountDeleted(run.events, false)
            && summary.successfulDeletions + summary.failedDeletions
               == (if Executed(queue, dryRun, confirmation) then |queue| else 0))
      && (!Executed(queue, dryRun, confirmation) ==> forall e :: e in run.events ==> !e.ScrobbleDeleted?)
      && (Executed(queue, dryRun, confirmation) ==>
            |run.events| == |queue| + 1
            && forall i :: 0 <= i < |queue| ==> run.events[i] == DeletedEvent(i, queue[i], outcome(i)))
  {
    var run := Deletions(queue, dryRun, confirmation, outcome);
    if Executed(queue, dryRun, confirmation) {
      var n := |queue|;
      DeletedEventsInOrder(queue, outcome, n);
      DeletedEventsCounted(queue, outcome, n);
      SucceededPlusFailed(outcome, n);
      assert run.events[..n] == DeletedEvents(queue, outcome, n);
    }
  }

  /**
   * A dry run makes no delete call and shows no prompt: whatever the user
   * would answer and the calls would return, each mode emits its found events
   * and then a dry-run summary counting them.
   */
  lemma DryRunDeletesNothing(recent: Fetch, rangeStr: string, c1: Result<bool, string>, c2: Result<bool, string>,
                             o1: nat -> Result<bool, LastFmError>, o2: nat -> Result<bool, LastFmError>)
    ensures PagesRun(recent, rangeStr, true, c1, o1) == PagesRun(recent, rangeStr, true, c2, o2)
    ensures TimestampRun(recent, rangeStr, true, c1, o1) == TimestampRun(recent, rangeStr, true, c2, o2)
    ensures OffsetRun(recent, rangeStr, true, c1, o1) == OffsetRun(recent, rangeStr, true, c2, o2)
    ensures ParseRange(rangeStr, "pages").Ok? ==>
      var scanned := PagesScanned(recent, ParseRange(rangeStr, "pages").value.0, ParseRange(rangeStr, "pages").value.1);
      PagesRun(recent, rangeStr, true, c1, o1)
        == Run(Found(scanned, None) + [Summary(|Found(scanned, None)|, 0, 0, true)], None)
  {
    match ParseRange(rangeStr, "pages")
    case Err(_) =>
    case Ok(range) =>
      FoundSound(PagesScanned(recent, range.0, range.1), None);
  }

  /**
   * When the selection is read and the prompt answered, each mode's final
   * summary counts exactly the found events it emitted before.
   */
  lemma SummaryCountsFound(tracks: seq<Track>, offsetBase: Option<nat>, dryRun: bool, confirmation: Result<bool, string>,
                           outcome: nat -> Result<bool, LastFmError>)
    requires confirmation.Ok?
    ensures var run := AfterFound(Found(tracks, offsetBase), Deletions(Queue(tracks), dryRun, confirmation, outcome));
      run.error.None? && run.events[|run.events| - 1].Summary?
      && run.events[|run.events| - 1].totalFound == |Found(tracks, offsetBase)|
      && forall k :: 0 <= k < |Found(tracks, offsetBase)| ==> run.events[k].ScrobbleFound?
  {
    FoundSound(tracks, offsetBase);
    DeletionsFacts(Queue(tracks), dryRun, confirmation, outcome);
    var found := Found(tracks, offsetBase);
    forall k | 0 <= k < |found| ensures found[k].ScrobbleFound? {
      assert Describes(found[k], Queue(tracks)[k], tracks, offsetBase);
    }
  }
}
