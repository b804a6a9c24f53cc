/**
 * The scrobble scrubber: each cycle walks the user's recent scrobbles,
 * collects up to `max_tracks` tracks it has not seen since it started,
 * runs the rewrite rules over each, applies the resulting rename (unless in
 * dry-run mode), marks the track as seen, and records when it ran.
 *
 * The recent-scrobble iterator is a `Stream`; the rule engine is a
 * parameter; the `k`-th artist-rename call (counted from 0) to Last.fm
 * returns `outcome(k)`.
 */
module Scrubber {
  import opened Wrappers
  import opened LastFmTypes
  import opened Consumption
  import opened RewriteInterface
  import opened Persistence
  import Text

  /** The daemon's command line. */
  datatype Args = Args(interval: nat, maxTracks: nat, dryRun: bool, stateFile: string)

  /** The command line's defaults: every 300 seconds, at most 100 tracks, applying edits. */
  const DefaultArgs := Args(300, 100, false, "scrobble_state.db")

  /** A track's identity within the scrubber: its artist, a bar, its name. */
  function TrackKey(t: Track): string {
    t.artist + "|" + t.name
  }

  /** When no artist contains a bar, the key tells tracks apart by artist and name. */
  lemma TrackKeyDetermines(a: Track, b: Track)
    requires '|' !in a.artist && '|' !in b.artist
    ensures TrackKey(a) == TrackKey(b) <==> a.artist == b.artist && a.name == b.name
  {
    var ka, kb := TrackKey(a), TrackKey(b);
    if ka == kb {
      FirstBar(a);
      FirstBar(b);
      assert a.artist == ka[..|a.artist|] == kb[..|b.artist|] == b.artist;
      assert a.name == ka[|a.artist| + 1..] == kb[|b.artist| + 1..] == b.name;
    }
  }

  /** The first bar of a key follows the artist, when the artist has none. */
  lemma FirstBar(t: Track)
    requires '|' !in t.artist
    ensures Text.IndexOf(TrackKey(t), '|') == Some(|t.artist|)
  {
    var k := TrackKey(t);
    assert k[..|t.artist|] == t.artist;
    assert k[|t.artist|] == '|';
  }

  /** With a bar in an artist's name, two different tracks can share a key. */
  lemma KeysCanCollide()
    ensures var a := Track("b", "a|", 0, None, None, None);
      var b := Track("|b", "a", 0, None, None, None);
      a != b && TrackKey(a) == TrackKey(b)
  {
    assert TrackKey(Track("b", "a|", 0, None, None, None)) == "a||b";
    assert TrackKey(Track("|b", "a", 0, None, None, None)) == "a||b";
  }

  /** What the rules ask for a track. */
  datatype ScrubAction = RenameTrack(newName: string) | RenameArtist(newArtist: string)

  /**
   * `analyze_track`: nothing unless some rule applies and applying the
   * rules changes something; then a track rename if the track name changed,
   * else an artist rename if the artist changed. Rule errors give nothing.
   */
  function AnalyzeTrack(engine: RuleEngine, rules: seq<RewriteRule>, track: Track): Option<ScrubAction> {
    match engine.anyRulesApply(rules, track)
    case Err(_) => None
    case Ok(applies) =>
      if !applies then None
      else
        match engine.applyAllRules(rules, engine.noOpEdit(track))
        case Err(_) => None
        case Ok(outcome) =>
          var edit := outcome.1;
          if !outcome.0 then None
          else if edit.trackName != edit.trackNameOriginal then Some(RenameTrack(edit.trackName))
          else if edit.artistName != edit.artistNameOriginal then Some(RenameArtist(edit.artistName))
          else None
  }

  /**
   * A track rename wins over an artist rename; an artist rename needs the
   * track name unchanged; there is an action only when the rules apply and
   * changed the track or artist name.
   */
  lemma AnalyzeTrackPrecedence(engine: RuleEngine, rules: seq<RewriteRule>, track: Track)
    ensures var a := AnalyzeTrack(engine, rules, track);
      var applied := engine.applyAllRules(rules, engine.noOpEdit(track));
      var changed := engine.anyRulesApply(rules, track) == Ok(true) && applied.Ok? && applied.value.0;
      && (a.Some? ==> changed)
      && (a.Some? && a.value.RenameTrack? <==> changed && applied.value.1.trackName != applied.value.1.trackNameOriginal)
      && (a.Some? && a.value.RenameTrack? ==> a.value.newName == applied.value.1.trackName)
      && (a.Some? && a.value.RenameArtist? <==>
            changed && applied.value.1.trackName == applied.value.1.trackNameOriginal
            && applied.value.1.artistName != applied.value.1.artistNameOriginal)
      && (a.Some? && a.value.RenameArtist? ==> a.value.newArtist == applied.value.1.artistName)
  {
  }

  /** The Last.fm call `edit_artist_for_track`, by its arguments. */
  datatype ArtistEditCall = ArtistEditCall(trackName: string, artistName: string, newArtist: string)

  /** The call `apply_action` makes for `action`, if any. */
  function ActionCall(track: Track, action: ScrubAction): Option<ArtistEditCall> {
    match action
    case RenameTrack(_) => None
    case RenameArtist(newArtist) => Some(ArtistEditCall(track.name, track.artist, newArtist))
  }

  /**
   * `apply_action`: a track rename is only reported (no call is made); an
   * artist rename calls `edit_artist_for_track` with the track's name and
   * artist and the new artist, and fails when that call fails.
   */
  method ApplyAction(track: Track, action: ScrubAction, outcome: Result<(), LastFmError>)
    returns (call: Option<ArtistEditCall>, result: Result<(), LastFmError>)
    ensures action.RenameTrack? ==> call.None? && result.Ok?
    ensures action.RenameArtist? ==>
      call == Some(ArtistEditCall(track.name, track.artist, action.newArtist)) && result == outcome
    ensures call == ActionCall(track, action)
  {
    match action {
      case RenameTrack(_) =>
        call := None;
        result := Ok(());
      case RenameArtist(newArtist) =>
        call := Some(ArtistEditCall(track.name, track.artist, newArtist));
        result := outcome;
    }
  }

  // ---------------------------------------------------------------------------
  // One cycle, as functions
  // ---------------------------------------------------------------------------

  /** The tracks collected, and whether the cap stopped the collection before the iterator's end. */
  datatype Scan = Scan(collected: seq<Track>, capped: bool)

  /**
   * The collection loop with `room` tracks still to collect: each track is
   * read, the loop stops at the first track read with no room left, and an
   * unseen track is collected. Seen keys are not updated here, so a track
   * repeated in the listing is collected each time.
   */
  function ScanTracks(items: seq<Track>, seen: set<string>, room: nat): Scan
    decreases |items|
  {
    if items == [] then Scan([], false)
    else if room == 0 then Scan([], true)
    else if TrackKey(items[0]) in seen then ScanTracks(items[1..], seen, room)
    else
      var rest := ScanTracks(items[1..], seen, room - 1);
      Scan([items[0]] + rest.collected, rest.capped)
  }

  /**
   * The tracks whose key is not in `seen`, in order; each such track occurs
   * as often as in `items`.
   */
  function Unseen(items: seq<Track>, seen: set<string>): (r: seq<Track>)
    ensures forall t :: multiset(r)[t] == if TrackKey(t) in seen then 0 else multiset(items)[t]
    decreases |items|
  {
    if items == [] then []
    else
      assert items == [items[0]] + items[1..];
      if TrackKey(items[0]) in seen then Unseen(items[1..], seen) else [items[0]] + Unseen(items[1..], seen)
  }

  function Min(a: nat, b: nat): nat {
    if a < b then a else b
  }

  /**
   * The collected tracks are the first `room` unseen ones (all of them
   * when there are fewer); when the cap stops the collection, exactly
   * `room` were collected, and otherwise every unseen track was.
   */
  lemma {:induction false} ScanIsFirstUnseen(items: seq<Track>, seen: set<string>, room: nat)
    ensures var s := ScanTracks(items, seen, room);
      var u := Unseen(items, seen);
      && s.collected == u[..Min(room, |u|)]
      && (s.capped ==> |s.collected| == room)
      && (!s.capped ==> s.collected == u)
    decreases |items|
  {
    if items != [] && room > 0 {
      ScanIsFirstUnseen(items[1..], seen, if TrackKey(items[0]) in seen then room else room - 1);
    }
  }

  /** What a cycle has done so far: the keys marked seen, the calls made, and the error that ended it. */
  datatype Progress = Progress(marked: seq<string>, calls: seq<ArtistEditCall>, error: Option<LastFmError>)

  /** Processing one more track after `p`. */
  function Step(p: Progress, track: Track, engine: RuleEngine, rules: seq<RewriteRule>, dryRun: bool,
                outcome: nat -> Result<(), LastFmError>): Progress
  {
    var key := TrackKey(track);
    var action := AnalyzeTrack(engine, rules, track);
    if action.None? || dryRun then Progress(p.marked + [key], p.calls, None)
    else
      match ActionCall(track, action.value)
      case None => Progress(p.marked + [key], p.calls, None)
      case Some(call) =>
        var o := outcome(|p.calls|);
        if o.Err? then Progress(p.marked, p.calls + [call], Some(o.error))
        else Progress(p.marked + [key], p.calls + [call], None)
  }

  /** The processing loop over the first `n` collected tracks; it stops at the first failed call. */
  function ProcessPrefix(tracks: seq<Track>, n: nat, engine: RuleEngine, rules: seq<RewriteRule>, dryRun: bool,
                         outcome: nat -> Result<(), LastFmError>): Progress
    requires n <= |tracks|
  {
    if n == 0 then Progress([], [], None)
    else
      var p := ProcessPrefix(tracks, n - 1, engine, rules, dryRun, outcome);
      if p.error.Some? then p else Step(p, tracks[n - 1], engine, rules, dryRun, outcome)
  }

  function Keys(tracks: seq<Track>): seq<string> {
    seq(|tracks|, i requires 0 <= i < |tracks| => TrackKey(tracks[i]))
  }

  /** `check_and_process_tracks`. */
  function CheckAndProcess(recent: Stream<Track, LastFmError>, seen: set<string>, args: Args, engine: RuleEngine,
                           rules: seq<RewriteRule>, outcome: nat -> Result<(), LastFmError>): Progress
  {
    var scan := ScanTracks(recent.items, seen, args.maxTracks);
    if !scan.capped && recent.error.Some? then Progress([], [], recent.error)
    else ProcessPrefix(scan.collected, |scan.collected|, engine, rules, args.dryRun, outcome)
  }

  /** Once a call has failed, later tracks change nothing. */
  lemma {:induction false} ErrorPersists(tracks: seq<Track>, m: nat, n: nat, engine: RuleEngine, rules: seq<RewriteRule>,
                                         dryRun: bool, outcome: nat -> Result<(), LastFmError>)
    requires m <= n <= |tracks|
    requires ProcessPrefix(tracks, m, engine, rules, dryRun, outcome).error.Some?
    ensures ProcessPrefix(tracks, n, engine, rules, dryRun, outcome) == ProcessPrefix(tracks, m, engine, rules, dryRun, outcome)
    decreases n - m
  {
    if m < n {
      ErrorPersists(tracks, m, n - 1, engine, rules, dryRun, outcome);
    }
  }

  // ---------------------------------------------------------------------------
  // The scrubber
  // ---------------------------------------------------------------------------

  /** `ScrobbleScrubber`, over the file-backed store. */
  class ScrobbleScrubber {
    var args: Args
    var storage: FileStorage
    var timestampState: TimestampState
    var rulesState: RewriteRulesState
    var seenTracks: set<string>

    /**
     * `ScrobbleScrubber::new`: the stored states are loaded; when there are
     * no stored rules the default rules are used and saved. Nothing is seen
     * yet.
     */
    constructor (args: Args, storage: FileStorage, defaultRules: seq<RewriteRule>)
      modifies storage
      ensures this.args == args && this.storage == storage && seenTracks == {}
      ensures timestampState == LoadedTimestamp(old(storage.db))
      ensures LoadedRules(old(storage.db)).rewriteRules != [] ==>
        rulesState == LoadedRules(old(storage.db)) && storage.db == old(storage.db)
      ensures LoadedRules(old(storage.db)).rewriteRules == [] ==>
        rulesState == WithDefaultRules(defaultRules) && storage.db == old(storage.db)[RulesKey := StoredRules(rulesState)]
    {
      var timestamp := storage.LoadTimestampState();
      var rules := storage.LoadRewriteRulesState();
      if rules.rewriteRules == [] {
        rules := WithDefaultRules(defaultRules);
        storage.SaveRewriteRulesState(rules);
      }
      this.args := args;
      this.storage := storage;
      timestampState := timestamp;
      rulesState := rules;
      seenTracks := {};
    }

    /**
     * `check_and_process_tracks`: collect, then process; every processed
     * track is marked seen, and a failed call ends the cycle before its
     * track is marked. An iterator error ends it before anything is processed.
     */
    method CheckAndProcessTracks(recent: Stream<Track, LastFmError>, engine: RuleEngine,
                                 outcome: nat -> Result<(), LastFmError>)
      returns (calls: seq<ArtistEditCall>, result: Result<(), LastFmError>)
      modifies this
      ensures var p := CheckAndProcess(recent, old(seenTracks), args, engine, rulesState.rewriteRules, outcome);
        && seenTracks == old(seenTracks) + (set k | k in p.marked)
        && calls == p.calls
        && result == (if p.error.Some? then Err(p.error.value) else Ok(()))
      ensures args == old(args) && storage == old(storage)
      ensures timestampState == old(timestampState) && rulesState == old(rulesState)
    {
      var items := recent.items;
      var i := 0;
      var processed := 0;
      var tracksToProcess: seq<Track> := [];
      var capped := false;
      ghost var total := ScanTracks(items, seenTracks, args.maxTracks);
      while i < |items|
        invariant 0 <= i <= |items|
        invariant processed == |tracksToProcess| <= args.maxTracks
        invariant var rest := ScanTracks(items[i..], seenTracks, args.maxTracks - processed);
          total == Scan(tracksToProcess + rest.collected, rest.capped)
        invariant capped ==> i < |items| && processed == args.maxTracks
        decreases |items| - i, if capped then 0 else 1
      {
        assert items[i..][1..] == items[i + 1..];
        if processed >= args.maxTracks {
          capped := true;
          break;
        }
        var track := items[i];
        i := i + 1;
        if TrackKey(track) !in seenTracks {
          tracksToProcess := tracksToProcess + [track];
          processed := processed + 1;
        }
      }
      assert total.collected == tracksToProcess && total.capped == capped;
      if !capped && recent.error.Some? {
        return [], Err(recent.error.value);
      }
      calls, result := ProcessTracks(tracksToProcess, engine, outcome);
    }

    /** The processing loop of `check_and_process_tracks`. */
    method ProcessTracks(tracks: seq<Track>, engine: RuleEngine, outcome: nat -> Result<(), LastFmError>)
      returns (calls: seq<ArtistEditCall>, result: Result<(), LastFmError>)
      modifies this
      ensures var p := ProcessPrefix(tracks, |tracks|, engine, rulesState.rewriteRules, args.dryRun, outcome);
        && seenTracks == old(seenTracks) + (set k | k in p.marked)
        && calls == p.calls
        && result == (if p.error.Some? then Err(p.error.value) else Ok(()))
      ensures args == old(args) && storage == old(storage)
      ensures timestampState == old(timestampState) && rulesState == old(rulesState)
    {
      ghost var marked: seq<string> := [];
      calls := [];
      var i := 0;
      while i < |tracks|
        invariant 0 <= i <= |tracks|
        invariant ProcessPrefix(tracks, i, engine, rulesState.rewriteRules, args.dryRun, outcome) == Progress(marked, calls, None)
        invariant seenTracks == old(seenTracks) + (set k | k in marked)
        invariant args == old(args) && storage == old(storage)
        invariant timestampState == old(timestampState) && rulesState == old(rulesState)
      {
        var track := tracks[i];
        var action := AnalyzeTrack(engine, rulesState.rewriteRules, track);
        if action.Some? && !args.dryRun {
          var call, applied := ApplyAction(track, action.value, outcome(|calls|));
          if call.Some? {
            calls := calls + [call.value];
          }
          if applied.Err? {
            ErrorPersists(tracks, i + 1, |tracks|, engine, rulesState.rewriteRules, args.dryRun, outcome);
            return calls, Err(applied.error);
          }
        }
        seenTracks := seenTracks + {TrackKey(track)};
        marked := marked + [TrackKey(track)];
        i := i + 1;
      }
      result := Ok(());
    }

    /**
     * One cycle of `run`: process (an error is only logged), then record
     * `now` as the last processed time and save it.
     */
    method RunCycle(now: nat, recent: Stream<Track, LastFmError>, engine: RuleEngine,
                    outcome: nat -> Result<(), LastFmError>)
      returns (calls: seq<ArtistEditCall>)
      modifies this, storage
      ensures var p := CheckAndProcess(recent, old(seenTracks), args, engine, rulesState.rewriteRules, outcome);
        seenTracks == old(seenTracks) + (set k | k in p.marked) && calls == p.calls
      ensures timestampState == TimestampState(Some(now))
      ensures storage == old(storage) && storage.db == old(storage.db)[TimestampKey := StoredTimestamp(timestampState)]
      ensures args == old(args) && rulesState == old(rulesState)
    {
      var result;
      calls, result := CheckAndProcessTracks(recent, engine, outcome);
      timestampState := TimestampState(Some(now));
      storage.SaveTimestampState(timestampState);
    }
  }

  // ---------------------------------------------------------------------------
  // Facts
  // ---------------------------------------------------------------------------

  /**
   * Processing marks the tracks' keys in order. With no failed call every
   * track is marked; a failed call comes from an artist rename outside dry
   * run, and leaves that track and every later one unmarked. A dry run
   * makes no call. Calls before the failed one succeeded.
   */
  lemma {:induction false} ProcessFacts(tracks: seq<Track>, n: nat, engine: RuleEngine, rules: seq<RewriteRule>,
                                        dryRun: bool, outcome: nat -> Result<(), LastFmError>)
    requires n <= |tracks|
    ensures var p := ProcessPrefix(tracks, n, engine, rules, dryRun, outcome);
      && |p.marked| <= n && p.marked == Keys(tracks)[..|p.marked|]
      && |p.calls| <= n
      && (p.error.None? ==> |p.marked| == n)
      && (p.error.Some? ==>
            var j := |p.marked|;
            && j < n && !dryRun
            && AnalyzeTrack(engine, rules, tracks[j]).Some? && AnalyzeTrack(engine, rules, tracks[j]).value.RenameArtist?
            && |p.calls| > 0
            && Some(p.calls[|p.calls| - 1]) == ActionCall(tracks[j], AnalyzeTrack(engine, rules, tracks[j]).value)
            && outcome(|p.calls| - 1) == Err(p.error.value))
      && (dryRun ==> p.calls == [] && p.error.None?)
      && (forall k :: 0 <= k < |p.calls| && (p.error.None? || k < |p.calls| - 1) ==> outcome(k).Ok?)
  {
    if n > 0 {
      ProcessFacts(tracks, n - 1, engine, rules, dryRun, outcome);
      var p := ProcessPrefix(tracks, n - 1, engine, rules, dryRun, outcome);
      if p.error.None? {
        assert Keys(tracks)[..n] == Keys(tracks)[..n - 1] + [TrackKey(tracks[n - 1])];
      }
    }
  }

  /**
   * In one cycle: no already-seen track is processed, at most `max_tracks`
   * are, in the order of the listing, and a dry run makes no call. When the
   * iterator fails before the cap stops the collection, nothing is processed.
   */
  lemma CycleFacts(recent: Stream<Track, LastFmError>, seen: set<string>, args: Args, engine: RuleEngine,
                   rules: seq<RewriteRule>, outcome: nat -> Result<(), LastFmError>)
    ensures var p := CheckAndProcess(recent, seen, args, engine, rules, outcome);
      var u := Unseen(recent.items, seen);
      var collected := u[..Min(args.maxTracks, |u|)];
      && |p.marked| <= args.maxTracks
      && (forall k :: k in p.marked ==> k !in seen)
      && |p.marked| <= |collected| && p.marked == Keys(collected)[..|p.marked|]
      && (args.dryRun ==> p.calls == [])
      && (p.error.None? ==> p.marked == Keys(collected))
  {
    var scan := ScanTracks(recent.items, seen, args.maxTracks);
    ScanIsFirstUnseen(recent.items, seen, args.maxTracks);
    var u := Unseen(recent.items, seen);
    var collected := u[..Min(args.maxTracks, |u|)];
    ProcessFacts(collected, |collected|, engine, rules, args.dryRun, outcome);
    forall t | t in collected
      ensures TrackKey(t) !in seen
    {
      assert t in u;
      assert multiset(u)[t] > 0;
    }
  }

  /** A track listed twice among the unseen ones is processed twice in one cycle. */
  lemma RepeatedTrackCollectedTwice(t: Track, seen: set<string>, room: nat)
    requires TrackKey(t) !in seen && room >= 2
    ensures ScanTracks([t, t], seen, room).collected == [t, t]
  {
    assert [t, t][1..] == [t];
    assert [t][1..] == [];
    assert ScanTracks([t], seen, room - 1).collected == [t];
  }
}
