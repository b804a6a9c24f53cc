/**
 * The older `edit` command: the same walk over discovered scrobbles as the
 * current one, printing instead of emitting events. A dry run collects the
 * discovered scrobbles and reports how many distinct tracks and albums they
 * cover; an applied run keeps every response it received and ends with a
 * verdict and the messages of the unsuccessful responses.
 */
module LegacyEditCommand {
  import opened Wrappers
  import opened LastFmTypes
  import opened Consumption
  import opened ScrobbleEdits
  import opened EditResponses
  import opened EditCommand

  /** The closing line of an applied run. */
  datatype Verdict = Completed | AllFailed | NoVerdict

  /** The summary printed after the walk. */
  datatype EditReport =
    | NothingFound
    | DryRunReport(total: nat, uniqueTracks: nat, uniqueAlbums: nat)
      /** `failedDetails` numbers each unsuccessful response by its place among the responses received. */
    | AppliedReport(total: nat, successful: nat, failed: nat, verdict: Verdict, failedDetails: seq<(nat, string)>)

  /**
   * What one older `edit` does: the exact edits submitted in order, and
   * either the report or the discovery error that ended it early.
   */
  datatype LegacyEditRun = LegacyEditRun(submitted: seq<ExactScrobbleEdit>, report: Option<EditReport>,
                                         error: Option<LastFmError>)

  /** The responses received from the first `n` submissions, in order; errors leave no response. */
  function Responses(submit: nat -> Result<EditResponse, LastFmError>, n: nat): (r: seq<EditResponse>)
    ensures |r| <= n
  {
    if n == 0 then []
    else Responses(submit, n - 1) + (if submit(n - 1).Ok? then [submit(n - 1).value] else [])
  }

  /** The unsuccessful responses among `responses`, numbered by position from 1, with their summaries. */
  function FailedDetails(responses: seq<EditResponse>): seq<(nat, string)> {
    if responses == [] then []
    else
      var last := responses[|responses| - 1];
      FailedDetails(responses[..|responses| - 1])
      + (if AllSuccessful(last) then [] else [(|responses|, SummaryMessage(last))])
  }

  function VerdictOf(successful: nat, failed: nat): Verdict {
    if successful > 0 then Completed else if failed > 0 then AllFailed else NoVerdict
  }

  function UniqueTracks(edits: seq<ExactScrobbleEdit>): set<string> {
    set e | e in edits :: e.trackNameOriginal
  }

  function UniqueAlbums(edits: seq<ExactScrobbleEdit>): set<string> {
    set e | e in edits :: e.albumNameOriginal
  }

  /** The report once discovery ended without an error. */
  function Report(variations: seq<ExactScrobbleEdit>, dryRun: bool,
                  submit: nat -> Result<EditResponse, LastFmError>): EditReport
  {
    var n := |variations|;
    if n == 0 then NothingFound
    else if dryRun then DryRunReport(n, |UniqueTracks(variations)|, |UniqueAlbums(variations)|)
    else
      var successful := Successes(submit, n);
      var failed := Failures(submit, n);
      AppliedReport(n, successful, failed, VerdictOf(successful, failed),
                    if failed > 0 then FailedDetails(Responses(submit, n)) else [])
  }

  /** `discover_and_handle_edits` of the older command. */
  function LegacyHandleEdits(request: ScrobbleEdit, discovered: Stream<ExactScrobbleEdit, LastFmError>, dryRun: bool,
                             submit: nat -> Result<EditResponse, LastFmError>): LegacyEditRun
  {
    var submitted := if dryRun then [] else FinalEdits(discovered.items, request);
    if discovered.error.Some? then LegacyEditRun(submitted, None, discovered.error)
    else LegacyEditRun(submitted, Some(Report(discovered.items, dryRun, submit)), None)
  }

  /** `discover_and_handle_edits` of the older command: the walk, then the report. */
  method LegacyDiscoverAndHandleEdits(request: ScrobbleEdit, discovered: Stream<ExactScrobbleEdit, LastFmError>,
                                      dryRun: bool, submit: nat -> Result<EditResponse, LastFmError>)
    returns (run: LegacyEditRun)
    ensures run == LegacyHandleEdits(request, discovered, dryRun, submit)
  {
    var variations := discovered.items;
    var discoveredEdits, editResults, submitted, successfulEdits, failedEdits := Walk(request, variations, dryRun, submit);
    if discovered.error.Some? {
      return LegacyEditRun(submitted, None, discovered.error);
    }
    var report := Summarise(discoveredEdits, editResults, |variations|, successfulEdits, failedEdits, dryRun);
    run := LegacyEditRun(submitted, Some(report), None);
  }

  /** The loop of `discover_and_handle_edits` over the discovered variations. */
  method Walk(request: ScrobbleEdit, variations: seq<ExactScrobbleEdit>, dryRun: bool,
              submit: nat -> Result<EditResponse, LastFmError>)
    returns (discoveredEdits: seq<ExactScrobbleEdit>, editResults: seq<EditResponse>,
             submitted: seq<ExactScrobbleEdit>, successfulEdits: nat, failedEdits: nat)
    ensures discoveredEdits == if dryRun then variations else []
    ensures submitted == if dryRun then [] else FinalEdits(variations, request)
    ensures editResults == if dryRun then [] else Responses(submit, |variations|)
    ensures successfulEdits == (if dryRun then 0 else Successes(submit, |variations|))
    ensures failedEdits == (if dryRun then 0 else Failures(submit, |variations|))
  {
    discoveredEdits, editResults, submitted := [], [], [];
    var count := 0;
    successfulEdits, failedEdits := 0, 0;
    while count < |variations|
      invariant count <= |variations|
      invariant discoveredEdits == if dryRun then variations[..count] else []
      invariant |submitted| == if dryRun then 0 else count
      invariant forall k :: 0 <= k < |submitted| ==> submitted[k] == Overlay(variations[k], request)
      invariant editResults == if dryRun then [] else Responses(submit, count)
      invariant successfulEdits == (if dryRun then 0 else Successes(submit, count))
      invariant failedEdits == (if dryRun then 0 else Failures(submit, count))
    {
      var discoveredEdit := variations[count];
      if dryRun {
        assert variations[..count + 1] == variations[..count] + [discoveredEdit];
        discoveredEdits := discoveredEdits + [discoveredEdit];
      } else {
        submitted := submitted + [Overlay(discoveredEdit, request)];
        editResults, successfulEdits, failedEdits := Record(submit(count), editResults, successfulEdits, failedEdits);
        CountsStep(submit, count);
      }
      count := count + 1;
    }
    assert variations[..count] == variations;
    if dryRun {
      assert submitted == [];
    } else {
      assert submitted == FinalEdits(variations, request);
    }
  }

  /** The responses and counts after one more submission. */
  lemma CountsStep(submit: nat -> Result<EditResponse, LastFmError>, n: nat)
    ensures Responses(submit, n + 1) == Responses(submit, n) + (if submit(n).Ok? then [submit(n).value] else [])
    ensures Successes(submit, n + 1) == Successes(submit, n) + (if Succeeds(submit(n)) then 1 else 0)
    ensures Failures(submit, n + 1) == Failures(submit, n) + (if Succeeds(submit(n)) then 0 else 1)
  {
  }

  /** One submission's outcome: a received response is kept, and it counts as a success or a failure. */
  method Record(outcome: Result<EditResponse, LastFmError>, results: seq<EditResponse>, successful: nat, failed: nat)
    returns (results': seq<EditResponse>, successful': nat, failed': nat)
    ensures results' == results + (if outcome.Ok? then [outcome.value] else [])
    ensures successful' == successful + (if Succeeds(outcome) then 1 else 0)
    ensures failed' == failed + (if Succeeds(outcome) then 0 else 1)
  {
    results', successful', failed' := results, successful, failed;
    match outcome {
      case Ok(response) =>
        if AllSuccessful(response) {
          successful' := successful + 1;
        } else {
          failed' := failed + 1;
        }
        results' := results + [response];
      case Err(_) =>
        failed' := failed + 1;
    }
  }

  /** The summary lines, from what the walk gathered. */
  method Summarise(discoveredEdits: seq<ExactScrobbleEdit>, editResults: seq<EditResponse>, count: nat,
                   successfulEdits: nat, failedEdits: nat, dryRun: bool) returns (report: EditReport)
    ensures count == 0 ==> report == NothingFound
    ensures count > 0 && dryRun ==>
      report == DryRunReport(count, |UniqueTracks(discoveredEdits)|, |UniqueAlbums(discoveredEdits)|)
    ensures count > 0 && !dryRun ==>
      report == AppliedReport(count, successfulEdits, failedEdits, VerdictOf(successfulEdits, failedEdits),
                              if failedEdits > 0 then FailedDetails(editResults) else [])
  {
    if count == 0 {
      return NothingFound;
    }
    if dryRun {
      return DryRunReport(count, |UniqueTracks(discoveredEdits)|, |UniqueAlbums(discoveredEdits)|);
    }
    var details: seq<(nat, string)> := [];
    if failedEdits > 0 {
      for i := 0 to |editResults|
        invariant details == FailedDetails(editResults[..i])
      {
        assert editResults[..i + 1][..i] == editResults[..i];
        if !AllSuccessful(editResults[i]) {
          details := details + [(i + 1, SummaryMessage(editResults[i]))];
        }
      }
      assert editResults[..|editResults|] == editResults;
    }
    var verdict := if successfulEdits > 0 then Completed else if failedEdits > 0 then AllFailed else NoVerdict;
    report := AppliedReport(count, successfulEdits, failedEdits, verdict, details);
  }

  // ---------------------------------------------------------------------------
  // Facts
  // ---------------------------------------------------------------------------

  /** Distinct names number at least one and at most the edits they come from. */
  lemma {:induction false} UniqueBounds(edits: seq<ExactScrobbleEdit>)
    ensures |edits| > 0 ==> 1 <= |UniqueTracks(edits)| && 1 <= |UniqueAlbums(edits)|
    ensures |UniqueTracks(edits)| <= |edits| && |UniqueAlbums(edits)| <= |edits|
    decreases |edits|
  {
    if edits != [] {
      var init := edits[..|edits| - 1];
      var last := edits[|edits| - 1];
      assert edits == init + [last];
      UniqueBounds(init);
      assert UniqueTracks(edits) == UniqueTracks(init) + {last.trackNameOriginal};
      assert UniqueAlbums(edits) == UniqueAlbums(init) + {last.albumNameOriginal};
      assert last.trackNameOriginal in UniqueTracks(edits);
      assert last.albumNameOriginal in UniqueAlbums(edits);
    }
  }

  /** Every detail line names an unsuccessful response, numbered within the responses received. */
  lemma {:induction false} FailedDetailsSound(responses: seq<EditResponse>)
    ensures forall d :: d in FailedDetails(responses) ==> DetailOf(responses, d)
    ensures |FailedDetails(responses)| <= |responses|
    decreases |responses|
  {
    if responses != [] {
      FailedDetailsSound(responses[..|responses| - 1]);
      FailedDetailsSoundStep(responses);
    }
  }

  /** `d` numbers an unsuccessful response among `responses` and carries its summary. */
  predicate DetailOf(responses: seq<EditResponse>, d: (nat, string)) {
    1 <= d.0 <= |responses| && !AllSuccessful(responses[d.0 - 1]) && d.1 == SummaryMessage(responses[d.0 - 1])
  }

  lemma FailedDetailsSoundStep(responses: seq<EditResponse>)
    requires responses != []
    requires var init := responses[..|responses| - 1];
      (forall d :: d in FailedDetails(init) ==> DetailOf(init, d)) && |FailedDetails(init)| <= |init|
    ensures forall d :: d in FailedDetails(responses) ==> DetailOf(responses, d)
    ensures |FailedDetails(responses)| <= |responses|
  {
    var n := |responses|;
    var init := responses[..n - 1];
    var last := responses[n - 1];
    var tail := if AllSuccessful(last) then [] else [(n, SummaryMessage(last))];
    assert FailedDetails(responses) == FailedDetails(init) + tail;
    forall d | d in FailedDetails(responses) ensures DetailOf(responses, d) {
      if d in FailedDetails(init) {
        assert DetailOf(init, d);
        assert responses[d.0 - 1] == init[d.0 - 1];
      } else {
        assert d in tail;
      }
    }
  }

  /**
   * A dry run submits nothing and reports the distinct track and album
   * names among the variations found. An applied run submits the request
   * laid over every variation; its successes and failures add up to the
   * number found, the verdict is "completed" exactly when one edit
   * succeeded and "all failed" otherwise, and every detail line names an
   * unsuccessful response. Nothing found gives the "no matching scrobbles"
   * report and no summary.
   */
  lemma LegacyHandleEditsFacts(request: ScrobbleEdit, discovered: Stream<ExactScrobbleEdit, LastFmError>, dryRun: bool,
                               submit: nat -> Result<EditResponse, LastFmError>)
    ensures var r := LegacyHandleEdits(request, discovered, dryRun, submit);
      var n := |discovered.items|;
      && (r.error.None? <==> r.report.Some?)
      && (dryRun ==> r.submitted == [])
      && (!dryRun ==> r.submitted == FinalEdits(discovered.items, request))
      && (r.report.Some? ==>
            var report := r.report.value;
            && (report.NothingFound? <==> n == 0)
            && (dryRun && n > 0 ==>
                  report.DryRunReport? && report.total == n
                  && 1 <= report.uniqueTracks <= n && 1 <= report.uniqueAlbums <= n)
            && (!dryRun && n > 0 ==>
                  report.AppliedReport? && report.total == n
                  && report.successful + report.failed == n
                  && (report.verdict == Completed <==> report.successful > 0)
                  && (report.verdict == AllFailed <==> report.successful == 0)
                  && |report.failedDetails| <= report.failed
                  && forall d :: d in report.failedDetails ==> 1 <= d.0 <= |Responses(submit, n)| && d.1 == SummaryMessage(Responses(submit, n)[d.0 - 1])))
  {
    var n := |discovered.items|;
    SuccessesPlusFailures(submit, n);
    UniqueBounds(discovered.items);
    FailedDetailsSound(Responses(submit, n));
    DetailsAtMostFailures(submit, n);
  }

  /** No more detail lines than failed submissions: each names a response that was not all successful. */
  lemma {:induction false} DetailsAtMostFailures(submit: nat -> Result<EditResponse, LastFmError>, n: nat)
    ensures |FailedDetails(Responses(submit, n))| <= Failures(submit, n)
  {
    if n > 0 {
      DetailsAtMostFailures(submit, n - 1);
      var prev := Responses(submit, n - 1);
      if submit(n - 1).Ok? {
        var last := submit(n - 1).value;
        var all := prev + [last];
        assert all[..|all| - 1] == prev;
        assert FailedDetails(all) == FailedDetails(prev) + (if AllSuccessful(last) then [] else [(|all|, SummaryMessage(last))]);
        assert Responses(submit, n) == all;
      } else {
        assert Responses(submit, n) == prev + [] == prev;
      }
    }
  }

  /**
   * Detail lines are numbered among the responses received, not among the
   * variations: when the first submission fails with an error and the
   * second returns an unsuccessful response, the one detail line is
   * numbered 1 although it is about the second variation.
   */
  lemma DetailsNumberedAmongResponses(submit: nat -> Result<EditResponse, LastFmError>, e: LastFmError,
                                      response: EditResponse)
    requires submit(0) == Err(e) && submit(1) == Ok(response) && !AllSuccessful(response)
    ensures FailedDetails(Responses(submit, 2)) == [(1, SummaryMessage(response))]
  {
    assert Responses(submit, 1) == [];
    assert Responses(submit, 2) == [response];
    assert [response][..0] == [];
  }
}
