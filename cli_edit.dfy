/**
 * The `edit` command: builds an edit request from the command-line
 * arguments, walks the scrobbles discovery finds for it, and either reports
 * each one (dry run) or submits the requested changes laid over it,
 * counting successes and failures.
 *
 * The discovery iterator is a `Stream` of discovered exact edits; the
 * `k`-th submission (counted from 0) returns `submit(k)`.
 */
module EditCommand {
  import opened Wrappers
  import opened LastFmTypes
  import opened Consumption
  import opened ScrobbleEdits
  import opened EditResponses

  /** `VariationFound` is declared by the source but never emitted. */
  datatype EditEvent =
    | VariationFound(index: nat, variation: ExactScrobbleEdit)
    | EditApplied(index: nat, variation: ExactScrobbleEdit, success: bool, message: Option<string>)
    | DryRunVariation(index: nat, variation: ExactScrobbleEdit)
    | Summary(totalFound: nat, successfulEdits: nat, failedEdits: nat, dryRun: bool)

  /**
   * What one `edit` does: the events emitted, the exact edits submitted in
   * order, and the discovery error that ended it early, if any.
   */
  datatype EditRun = EditRun(events: seq<EditEvent>, submitted: seq<ExactScrobbleEdit>, error: Option<LastFmError>)

  /**
   * `create_scrobble_edit_from_args`: the new artist defaults to the
   * original one; every other argument is used as given. The older command
   * has the same function.
   */
  function CreateScrobbleEditFromArgs(artist: string, track: Option<string>, album: Option<string>,
                                      albumArtist: Option<string>, newTrack: Option<string>,
                                      newAlbum: Option<string>, newArtist: Option<string>,
                                      newAlbumArtist: Option<string>, timestamp: Option<nat>,
                                      editAll: bool): (r: ScrobbleEdit)
    ensures r.artistNameOriginal == artist && r.artistName == newArtist.UnwrapOr(artist)
    ensures r.trackNameOriginal == track && r.albumNameOriginal == album && r.albumArtistNameOriginal == albumArtist
    ensures r.trackName == newTrack && r.albumName == newAlbum && r.albumArtistName == newAlbumArtist
    ensures r.timestamp == timestamp && r.editAll == editAll
  {
    ScrobbleEdit(track, album, artist, albumArtist, newTrack, newAlbum, newArtist.UnwrapOr(artist),
                 newAlbumArtist, timestamp, editAll)
  }

  /**
   * A request that names no new value leaves a discovered scrobble of the
   * same artist as it is, apart from the edit-all flag.
   */
  lemma NoNewValuesKeepVariation(artist: string, track: Option<string>, album: Option<string>,
                                 albumArtist: Option<string>, timestamp: Option<nat>, editAll: bool,
                                 found: ExactScrobbleEdit)
    requires found.artistName == artist
    ensures var request := CreateScrobbleEditFromArgs(artist, track, album, albumArtist, None, None, None, None,
                                                      timestamp, editAll);
      Overlay(found, request) == found.(editAll := editAll)
  {
  }

  /** Whether the `k`-th submission succeeded: it returned a response whose every result succeeded. */
  predicate Succeeds(r: Result<EditResponse, LastFmError>) {
    r.Ok? && AllSuccessful(r.value)
  }

  /** The event for variation `k` once its submission returned `r`. */
  function AppliedEvent(k: nat, variation: ExactScrobbleEdit, r: Result<EditResponse, LastFmError>): (e: EditEvent)
    ensures e.EditApplied? && e.index == k + 1 && e.variation == variation
    ensures e.success <==> Succeeds(r)
    ensures e.success <==> e.message.None?
  {
    match r
    case Ok(response) =>
      var success := AllSuccessful(response);
      EditApplied(k + 1, variation, success, if success then None else Some(SummaryMessage(response)))
    case Err(e) => EditApplied(k + 1, variation, false, Some(ErrorMessage(e)))
  }

  function VariationEvent(k: nat, variation: ExactScrobbleEdit, dryRun: bool,
                          submit: nat -> Result<EditResponse, LastFmError>): EditEvent {
    if dryRun then DryRunVariation(k + 1, variation) else AppliedEvent(k, variation, submit(k))
  }

  /** How many of the first `n` submissions succeeded. */
  function Successes(submit: nat -> Result<EditResponse, LastFmError>, n: nat): nat {
    if n == 0 then 0 else Successes(submit, n - 1) + (if Succeeds(submit(n - 1)) then 1 else 0)
  }

  /** How many of the first `n` submissions failed, with an unsuccessful response or an error. */
  function Failures(submit: nat -> Result<EditResponse, LastFmError>, n: nat): nat {
    if n == 0 then 0 else Failures(submit, n - 1) + (if Succeeds(submit(n - 1)) then 0 else 1)
  }

  /** The exact edits submitted for `variations`: the request laid over each. */
  function FinalEdits(variations: seq<ExactScrobbleEdit>, request: ScrobbleEdit): seq<ExactScrobbleEdit> {
    seq(|variations|, k requires 0 <= k < |variations| => Overlay(variations[k], request))
  }

  /** `discover_and_handle_edits`. */
  function HandleEdits(request: ScrobbleEdit, discovered: Stream<ExactScrobbleEdit, LastFmError>, dryRun: bool,
                       submit: nat -> Result<EditResponse, LastFmError>): EditRun
  {
    var variations := discovered.items;
    var n := |variations|;
    var events := seq(n, k requires 0 <= k < n => VariationEvent(k, variations[k], dryRun, submit));
    var submitted := if dryRun then [] else FinalEdits(variations, request);
    if discovered.error.Some? then EditRun(events, submitted, discovered.error)
    else
      var summary := if dryRun then Summary(n, 0, 0, true) else Summary(n, Successes(submit, n), Failures(submit, n), false);
      EditRun(events + [summary], submitted, None)
  }

  /** `discover_and_handle_edits`: the loop over discovery, then the summary. */
  method DiscoverAndHandleEdits(request: ScrobbleEdit, discovered: Stream<ExactScrobbleEdit, LastFmError>, dryRun: bool,
                                submit: nat -> Result<EditResponse, LastFmError>) returns (run: EditRun)
    ensures run == HandleEdits(request, discovered, dryRun, submit)
  {
    var variations := discovered.items;
    var events: seq<EditEvent> := [];
    var submitted: seq<ExactScrobbleEdit> := [];
    var count := 0;
    var successfulEdits := 0;
    var failedEdits := 0;
    while count < |variations|
      invariant count <= |variations|
      invariant |events| == count
      invariant forall k :: 0 <= k < count ==> events[k] == VariationEvent(k, variations[k], dryRun, submit)
      invariant |submitted| == if dryRun then 0 else count
      invariant forall k :: 0 <= k < |submitted| ==> submitted[k] == Overlay(variations[k], request)
      invariant successfulEdits == (if dryRun then 0 else Successes(submit, count))
      invariant failedEdits == (if dryRun then 0 else Failures(submit, count))
    {
      var discoveredEdit := variations[count];
      var event;
      if dryRun {
        event := DryRunVariation(count + 1, discoveredEdit);
      } else {
        submitted := submitted + [Overlay(discoveredEdit, request)];
        var success;
        event, success := ApplyEdit(count, discoveredEdit, submit(count));
        if success {
          successfulEdits := successfulEdits + 1;
        } else {
          failedEdits := failedEdits + 1;
        }
      }
      assert event == VariationEvent(count, discoveredEdit, dryRun, submit);
      events := events + [event];
      count := count + 1;
    }
    ghost var n := |variations|;
    assert events == seq(n, k requires 0 <= k < n => VariationEvent(k, variations[k], dryRun, submit));
    if dryRun {
      assert submitted == [];
    } else {
      assert submitted == FinalEdits(variations, request);
    }
    if discovered.error.Some? {
      return EditRun(events, submitted, discovered.error);
    }
    events := events + [Summary(count, successfulEdits, failedEdits, dryRun)];
    run := EditRun(events, submitted, None);
  }

  /** Submitting the final edit of variation `k`: its event and whether it counts as a success. */
  method ApplyEdit(k: nat, variation: ExactScrobbleEdit, response: Result<EditResponse, LastFmError>)
    returns (event: EditEvent, success: bool)
    ensures event == AppliedEvent(k, variation, response)
    ensures success <==> Succeeds(response)
  {
    match response {
      case Ok(r) =>
        success := AllSuccessful(r);
        event := EditApplied(k + 1, variation, success, if success then None else Some(SummaryMessage(r)));
      case Err(e) =>
        success := false;
        event := EditApplied(k + 1, variation, false, Some(ErrorMessage(e)));
    }
  }

  // ---------------------------------------------------------------------------
  // Facts
  // ---------------------------------------------------------------------------

  lemma {:induction false} SuccessesPlusFailures(submit: nat -> Result<EditResponse, LastFmError>, n: nat)
    ensures Successes(submit, n) + Failures(submit, n) == n
  {
    if n > 0 {
      SuccessesPlusFailures(submit, n - 1);
    }
  }

  /**
   * One event per discovered variation, numbered from 1 in discovery order.
   * In a dry run nothing is submitted and every event is `DryRunVariation`;
   * otherwise variation `k` is submitted as the request laid over it, and
   * its event reports whether that submission succeeded. Unless discovery
   * fails, exactly one `Summary` ends the run, with the number found and,
   * when applying, success and failure counts that add up to it.
   */
  lemma HandleEditsFacts(request: ScrobbleEdit, discovered: Stream<ExactScrobbleEdit, LastFmError>, dryRun: bool,
                         submit: nat -> Result<EditResponse, LastFmError>)
    ensures var r := HandleEdits(request, discovered, dryRun, submit);
      var n := |discovered.items|;
      && |r.events| == n + (if discovered.error.Some? then 0 else 1)
      && (forall k :: 0 <= k < n ==> r.events[k].index == k + 1 && r.events[k].variation == discovered.items[k])
      && (dryRun ==> r.submitted == [] && forall k :: 0 <= k < n ==> r.events[k].DryRunVariation?)
      && (!dryRun ==>
            |r.submitted| == n
            && forall k :: 0 <= k < n ==>
                 r.submitted[k] == Overlay(discovered.items[k], request)
                 && r.events[k].EditApplied? && (r.events[k].success <==> Succeeds(submit(k))))
      && (forall k :: 0 <= k < n ==> !r.events[k].Summary?)
      && (r.error.None? ==>
            var s := r.events[n];
            s.Summary? && s.totalFound == n && s.dryRun == dryRun
            && (dryRun ==> s.successfulEdits == 0 && s.failedEdits == 0)
            && (!dryRun ==> s.successfulEdits + s.failedEdits == n && s.successfulEdits == Successes(submit, n)))
  {
    SuccessesPlusFailures(submit, |discovered.items|);
  }
}
