/**
 * The `show` command: the scrobbles at given offsets from the most recent
 * one. Pages of recent scrobbles are gathered until the largest offset is
 * covered (or a page is empty or fails), then every requested offset, in
 * ascending order, is reported either with its scrobble or as unavailable.
 */
module ShowCommand {
  import opened Wrappers
  import opened LastFmTypes
  import DeleteCommand
  import DeleteFacts

  datatype ShowEvent =
    | ScrobbleDetails(offset: nat, scrobble: Track)
    | OffsetUnavailable(offset: nat, totalAvailable: nat)

  /**
   * What one `show` produces: the events in output order, the unavailable
   * offsets as first logged (request order), `shown_count`, and how many
   * scrobbles were gathered.
   */
  datatype ShowRun = ShowRun(events: seq<ShowEvent>, unavailable: seq<nat>, shown: nat, collected: nat)

  /** The largest requested offset. */
  function MaxOffset(offsets: seq<nat>): (m: nat)
    requires offsets != []
    ensures m in offsets
    ensures forall o :: o in offsets ==> o <= m
  {
    if |offsets| == 1 then offsets[0]
    else
      var rest := MaxOffset(offsets[1..]);
      assert forall o :: o in offsets ==> o == offsets[0] || o in offsets[1..];
      if offsets[0] >= rest then offsets[0] else rest
  }

  predicate Ascending(s: seq<nat>) {
    forall i, j :: 0 <= i < j < |s| ==> s[i] <= s[j]
  }

  /** `x` placed before the first element that is not smaller. */
  function Insert(x: nat, s: seq<nat>): (r: seq<nat>)
    ensures multiset(r) == multiset(s) + multiset{x}
    ensures forall k :: k in r ==> k == x || k in s
    ensures Ascending(s) ==> Ascending(r)
  {
    if s == [] then [x]
    else if x <= s[0] then
      InsertFront(x, s);
      [x] + s
    else
      var t := Insert(x, s[1..]);
      assert s == [s[0]] + s[1..];
      InsertBehind(x, s, t);
      [s[0]] + t
  }

  /** An element no larger than an ascending list's head keeps it ascending in front. */
  lemma InsertFront(x: nat, s: seq<nat>)
    requires s != [] && x <= s[0]
    ensures Ascending(s) ==> Ascending([x] + s)
  {
    if Ascending(s) {
      forall k | k in s ensures x <= k {
        var j :| 0 <= j < |s| && s[j] == k;
        assert s[0] <= s[j];
      }
      ConsAscending(x, s);
    }
  }

  /** The head of an ascending list stays in front of its tail with a larger element inserted. */
  lemma InsertBehind(x: nat, s: seq<nat>, t: seq<nat>)
    requires s != [] && s[0] < x
    requires forall k :: k in t ==> k == x || k in s[1..]
    requires Ascending(s[1..]) ==> Ascending(t)
    ensures Ascending(s) ==> Ascending([s[0]] + t)
  {
    if Ascending(s) {
      forall k | k in t ensures s[0] <= k {
        if k != x {
          var j :| 0 <= j < |s[1..]| && s[1..][j] == k;
          assert s[0] <= s[j + 1];
        }
      }
      assert Ascending(s[1..]);
      ConsAscending(s[0], t);
    }
  }

  /** An element no larger than any of an ascending list can go in front of it. */
  lemma ConsAscending(a: nat, t: seq<nat>)
    ensures Ascending(t) && (forall k :: k in t ==> a <= k) ==> Ascending([a] + t)
  {
    if Ascending(t) && (forall k :: k in t ==> a <= k) {
      var r := [a] + t;
      forall i, j | 0 <= i < j < |r| ensures r[i] <= r[j] {
        assert r[j] == t[j - 1];
        if i > 0 {
          assert r[i] == t[i - 1];
        } else {
          assert t[j - 1] in t;
        }
      }
    }
  }

  /** `sort_unstable` on offsets: the same offsets, duplicates kept, in ascending order. */
  function SortAscending(s: seq<nat>): (r: seq<nat>)
    ensures Ascending(r)
    ensures multiset(r) == multiset(s)
  {
    if s == [] then []
    else
      assert s == [s[0]] + s[1..];
      Insert(s[0], SortAscending(s[1..]))
  }

  /** The requested offsets at or beyond the `n` scrobbles gathered, in request order. */
  function Unavailable(offsets: seq<nat>, n: nat): (r: seq<nat>)
    ensures forall o :: o in r <==> o in offsets && o >= n
    ensures (forall o :: o in offsets ==> o < n) ==> r == []
  {
    if offsets == [] then []
    else
      var init := offsets[..|offsets| - 1];
      var last := offsets[|offsets| - 1];
      assert offsets == init + [last];
      assert last in offsets && forall o :: o in init ==> o in offsets;
      Unavailable(init, n) + (if last >= n then [last] else [])
  }

  /** How many of `offsets` are below `n`. */
  function CountBelow(offsets: seq<nat>, n: nat): nat {
    if offsets == [] then 0
    else CountBelow(offsets[..|offsets| - 1], n) + (if offsets[|offsets| - 1] < n then 1 else 0)
  }

  /** The event for one offset when `all` scrobbles were gathered. */
  function OffsetEvent(all: seq<Track>, offset: nat): ShowEvent {
    if offset < |all| then ScrobbleDetails(offset, all[offset]) else OffsetUnavailable(offset, |all|)
  }

  function Events(all: seq<Track>, sorted: seq<nat>): seq<ShowEvent> {
    seq(|sorted|, k requires 0 <= k < |sorted| => OffsetEvent(all, sorted[k]))
  }

  /** What is reported for `offsets` once `all` scrobbles are gathered. */
  function Report(all: seq<Track>, offsets: seq<nat>): ShowRun {
    var sorted := SortAscending(offsets);
    ShowRun(Events(all, sorted), Unavailable(offsets, |all|), CountBelow(sorted, |all|), |all|)
  }

  /** `handle_show_scrobbles` on a non-empty offset list. */
  function Show(recent: DeleteCommand.Fetch, offsets: seq<nat>): ShowRun
    requires offsets != []
  {
    Report(DeleteCommand.Collected(recent, 1, MaxOffset(offsets) + 1, 0), offsets)
  }

  /** The offsets the events report, in output order. */
  function EventOffsets(events: seq<ShowEvent>): seq<nat> {
    seq(|events|, k requires 0 <= k < |events| => events[k].offset)
  }

  /**
   * `handle_show_scrobbles`. The caller has refused an empty offset list
   * (on which `max().unwrap()` would panic).
   */
  method HandleShowScrobbles(recent: DeleteCommand.Fetch, offsets: seq<nat>) returns (run: ShowRun)
    requires offsets != []
    ensures run == Show(recent, offsets)
  {
    var maxOffset := MaxOffset(offsets);
    var sorted := SortAscending(offsets);
    var all := DeleteCommand.CollectRecent(recent, maxOffset + 1);
    var unavailable := Unavailable(offsets, |all|);
    var events, shown := ReportOffsets(all, sorted);
    run := ShowRun(events, unavailable, shown, |all|);
  }

  /** The loop over the sorted offsets: one event each, counting those shown. */
  method ReportOffsets(all: seq<Track>, sorted: seq<nat>) returns (events: seq<ShowEvent>, shown: nat)
    ensures events == Events(all, sorted)
    ensures shown == CountBelow(sorted, |all|)
  {
    events := [];
    shown := 0;
    for i := 0 to |sorted|
      invariant |events| == i
      invariant forall k :: 0 <= k < i ==> events[k] == OffsetEvent(all, sorted[k])
      invariant shown == CountBelow(sorted[..i], |all|)
    {
      assert sorted[..i + 1][..i] == sorted[..i];
      if sorted[i] < |all| {
        events := events + [ScrobbleDetails(sorted[i], all[sorted[i]])];
        shown := shown + 1;
      } else {
        events := events + [OffsetUnavailable(sorted[i], |all|)];
      }
    }
    assert sorted[..|sorted|] == sorted;
  }

  // ---------------------------------------------------------------------------
  // Facts
  // ---------------------------------------------------------------------------

  lemma {:induction false} CountBelowAppend(a: seq<nat>, b: seq<nat>, n: nat)
    ensures CountBelow(a + b, n) == CountBelow(a, n) + CountBelow(b, n)
    decreases |b|
  {
    if b != [] {
      var init := b[..|b| - 1];
      assert (a + b)[..|a + b| - 1] == a + init;
      CountBelowAppend(a, init, n);
    } else {
      assert a + b == a;
    }
  }

  /** Inserting an offset adds one to the count below `n` exactly when it is below `n`. */
  lemma {:induction false} CountBelowInsert(x: nat, s: seq<nat>, n: nat)
    ensures CountBelow(Insert(x, s), n) == CountBelow(s, n) + (if x < n then 1 else 0)
    decreases |s|
  {
    if s == [] {
      assert Insert(x, s) == [x];
      assert [x][..0] == [];
    } else if x <= s[0] {
      CountBelowAppend([x], s, n);
      assert [x][..0] == [];
    } else {
      CountBelowInsert(x, s[1..], n);
      CountBelowAppend([s[0]], Insert(x, s[1..]), n);
      CountBelowAppend([s[0]], s[1..], n);
      assert s == [s[0]] + s[1..];
    }
  }

  /** Sorting the offsets does not change how many are below `n`. */
  lemma {:induction false} CountBelowSorted(s: seq<nat>, n: nat)
    ensures CountBelow(SortAscending(s), n) == CountBelow(s, n)
    decreases |s|
  {
    if s != [] {
      CountBelowSorted(s[1..], n);
      CountBelowInsert(s[0], SortAscending(s[1..]), n);
      CountBelowAppend([s[0]], s[1..], n);
      assert s == [s[0]] + s[1..];
      assert [s[0]][..0] == [];
    }
  }

  /** Every offset is either below `n` or listed as unavailable. */
  lemma {:induction false} CountPlusUnavailable(offsets: seq<nat>, n: nat)
    ensures CountBelow(offsets, n) + |Unavailable(offsets, n)| == |offsets|
    decreases |offsets|
  {
    if offsets != [] {
      CountPlusUnavailable(offsets[..|offsets| - 1], n);
    }
  }

  /**
   * One event per requested offset, in ascending order of offset and with
   * every requested offset, duplicates included, used once.
   */
  lemma ReportOrder(all: seq<Track>, offsets: seq<nat>)
    ensures var r := Report(all, offsets);
      && |r.events| == |offsets|
      && (forall i, j :: 0 <= i < j < |r.events| ==> r.events[i].offset <= r.events[j].offset)
      && multiset(EventOffsets(r.events)) == multiset(offsets)
  {
    var r := Report(all, offsets);
    var sorted := SortAscending(offsets);
    assert |sorted| == |multiset(sorted)| == |multiset(offsets)| == |offsets|;
    assert EventOffsets(r.events) == sorted;
  }

  /**
   * An offset gets its scrobble exactly when it is below the number
   * gathered; otherwise the event gives that number.
   */
  lemma ReportEvents(all: seq<Track>, offsets: seq<nat>)
    ensures var r := Report(all, offsets);
      forall k :: 0 <= k < |r.events| ==>
        (r.events[k].ScrobbleDetails? <==> r.events[k].offset < |all|)
        && (r.events[k].ScrobbleDetails? ==> r.events[k].scrobble == all[r.events[k].offset])
        && (r.events[k].OffsetUnavailable? ==> r.events[k].totalAvailable == |all|)
  {
  }

  /**
   * The unavailable offsets are those at or beyond the number gathered; the
   * shown count is the number of requested offsets below it; together they
   * account for every requested offset.
   */
  lemma ReportCounts(all: seq<Track>, offsets: seq<nat>)
    ensures var r := Report(all, offsets);
      && r.collected == |all|
      && (forall o :: o in r.unavailable <==> o in offsets && o >= |all|)
      && r.shown == CountBelow(offsets, |all|)
      && r.shown + |r.unavailable| == |offsets|
  {
    CountBelowSorted(offsets, |all|);
    CountPlusUnavailable(offsets, |all|);
  }

  /** When every requested offset is below the number gathered, nothing is unavailable and every offset is shown. */
  lemma ReportAllBelow(all: seq<Track>, offsets: seq<nat>)
    requires forall o :: o in offsets ==> o < |all|
    ensures var r := Report(all, offsets);
      r.unavailable == [] && r.shown == |offsets|
      && forall k :: 0 <= k < |r.events| ==> r.events[k].ScrobbleDetails?
  {
    var r := Report(all, offsets);
    ReportCounts(all, offsets);
    ReportEvents(all, offsets);
    var sorted := SortAscending(offsets);
    forall k | 0 <= k < |r.events| ensures r.events[k].ScrobbleDetails? {
      assert r.events[k].offset == sorted[k];
      assert sorted[k] in sorted;
      assert sorted[k] in multiset(offsets);
      assert sorted[k] in offsets;
    }
  }

  /**
   * While every page from the first holds scrobbles, the largest offset is
   * covered: nothing is unavailable and every offset is shown.
   */
  lemma ShowAllAvailable(recent: DeleteCommand.Fetch, offsets: seq<nat>)
    requires offsets != []
    requires forall p :: p >= 1 ==> recent(p).Ok? && recent(p).value != []
    ensures var r := Show(recent, offsets);
      r.unavailable == [] && r.shown == |offsets|
      && forall k :: 0 <= k < |r.events| ==> r.events[k].ScrobbleDetails?
  {
    var all := DeleteCommand.Collected(recent, 1, MaxOffset(offsets) + 1, 0);
    DeleteFacts.CollectedEnough(recent, 1, MaxOffset(offsets) + 1, 0);
    ReportAllBelow(all, offsets);
  }
}
