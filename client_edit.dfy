/**
 * Submitting edits and deletions through the retry loop, and folding the
 * outcomes into `EditResponse` values: a single exact edit, a deletion, and
 * an edit request applied to every scrobble variation discovered for it.
 */
module ClientEdits {
  import opened Wrappers
  import opened Text
  import opened LastFmTypes
  import opened ScrobbleEdits
  import opened EditResponses
  import opened ClientConfigs
  import opened Retry
  import Discovery
  import DiscoveryCommon

  /** The retry settings of an edit or deletion: 5 s base delay, 300 s cap. */
  function SubmitRetryConfig(maxRetries: nat): (c: RetryConfig)
    ensures c.maxRetries == maxRetries && c.baseDelay == 5 && c.maxDelay == 300 && c.enabled
  {
    RetryConfig(maxRetries, 5, 300, true)
  }

  /** The retries `delete_scrobble` allows, and those `edit_scrobble` gives each edit. */
  const DeleteRetries: nat := 3
  const EditRetries: nat := 3

  function RateLimitExhaustedMessage(maxRetries: nat): string {
    "Rate limit exceeded after " + NatToString(maxRetries) + " retries"
  }

  /**
   * The single-result response for an exact edit: the submit's verdict on
   * success, and a failure carrying a message when the retry loop failed.
   */
  function SingleOutcome(e: ExactScrobbleEdit, maxRetries: nat, run: Result<RetryResult<bool>, LastFmError>): EditResponse {
    match run
    case Ok(v) => Single(v.result, None, None, e)
    case Err(RateLimit(_)) => Single(false, Some(RateLimitExhaustedMessage(maxRetries)), None, e)
    case Err(err) => Single(false, Some(ErrorMessage(err)), None, e)
  }

  /**
   * `edit_scrobble_single`. `submit(k)` is the outcome of the `k`-th submit
   * of the edit form (`true` when the server accepted the edit). It never
   * fails: every error becomes a failed result.
   */
  method EditScrobbleSingle(e: ExactScrobbleEdit, maxRetries: nat, submit: nat -> Result<bool, LastFmError>)
    returns (r: EditResponse)
    ensures r == SingleOutcome(e, maxRetries, Run(SubmitRetryConfig(maxRetries), submit, None, 0, 0).result)
  {
    var run, events := RetryWithBackoff(SubmitRetryConfig(maxRetries), submit);
    match run {
      case Ok(v) => r := Single(v.result, None, None, e);
      case Err(RateLimit(_)) => r := Single(false, Some(RateLimitExhaustedMessage(maxRetries)), None, e);
      case Err(err) => r := Single(false, Some(ErrorMessage(err)), None, e);
    }
  }

  /**
   * The first submit within the retry budget that is not rate limited
   * decides the single result: its verdict, or a failure with its error's
   * text. The result always holds the edit and no album information.
   */
  lemma SingleDecidedByFirstAnswer(e: ExactScrobbleEdit, maxRetries: nat, submit: nat -> Result<bool, LastFmError>, k: nat)
    requires k <= maxRetries
    requires forall j :: 0 <= j < k ==> IsRateLimit(submit(j))
    requires !IsRateLimit(submit(k))
    ensures SingleOutcome(e, maxRetries, Run(SubmitRetryConfig(maxRetries), submit, None, 0, 0).result)
            == match submit(k)
               case Ok(v) => Single(v, None, None, e)
               case Err(err) => Single(false, Some(ErrorMessage(err)), None, e)
  {
    RunFirstNotRateLimited(SubmitRetryConfig(maxRetries), submit, 0, 0, k);
  }

  /** Rate limited on every one of its `max_retries + 1` submits, the edit fails with the rate-limit message. */
  lemma SingleRateLimitExhausted(e: ExactScrobbleEdit, maxRetries: nat, submit: nat -> Result<bool, LastFmError>)
    requires forall j :: 0 <= j <= maxRetries ==> IsRateLimit(submit(j))
    ensures SingleOutcome(e, maxRetries, Run(SubmitRetryConfig(maxRetries), submit, None, 0, 0).result)
            == Single(false, Some(RateLimitExhaustedMessage(maxRetries)), None, e)
  {
    RunExhausted(SubmitRetryConfig(maxRetries), submit, 0, 0);
  }

  /** `delete_scrobble`'s answer for a retry outcome: the server's verdict, or `false` on any error. */
  function DeleteOutcome(run: Result<RetryResult<bool>, LastFmError>): bool {
    run.Ok? && run.value.result
  }

  /**
   * `delete_scrobble`. `delete(k)` is the outcome of the `k`-th deletion
   * request. Errors, rate limits included, become `false`.
   */
  method DeleteScrobble(delete: nat -> Result<bool, LastFmError>) returns (deleted: bool)
    ensures deleted == DeleteOutcome(Run(SubmitRetryConfig(DeleteRetries), delete, None, 0, 0).result)
  {
    var run, events := RetryWithBackoff(SubmitRetryConfig(DeleteRetries), delete);
    match run {
      case Ok(v) => deleted := v.result;
      case Err(_) => deleted := false;
    }
  }

  /**
   * A scrobble is reported deleted exactly when, within the retry budget,
   * the first request that is not rate limited answers `true`.
   */
  lemma DeleteDecidedByFirstAnswer(delete: nat -> Result<bool, LastFmError>)
    ensures DeleteOutcome(Run(SubmitRetryConfig(DeleteRetries), delete, None, 0, 0).result)
            <==> exists k :: 0 <= k <= DeleteRetries && delete(k) == Ok(true)
                             && forall j :: 0 <= j < k ==> IsRateLimit(delete(j))
  {
    var config := SubmitRetryConfig(DeleteRetries);
    var run := Run(config, delete, None, 0, 0);
    RunOk(config, delete, None, 0, 0);
    if k :| 0 <= k <= DeleteRetries && delete(k) == Ok(true) && forall j :: 0 <= j < k ==> IsRateLimit(delete(j)) {
      RunFirstNotRateLimited(config, delete, 0, 0, k);
    }
  }

  /** The `context` of the "nothing found" error: the track, else the album, else the artist. */
  function RequestContext(edit: ScrobbleEdit): string {
    match (edit.trackNameOriginal, edit.albumNameOriginal)
    case (Some(t), _) => "track '" + t + "' by '" + edit.artistNameOriginal + "'"
    case (None, Some(a)) => "album '" + a + "' by '" + edit.artistNameOriginal + "'"
    case (None, None) => "artist '" + edit.artistNameOriginal + "'"
  }

  function NoScrobblesMessage(edit: ScrobbleEdit): string {
    "No scrobbles found for " + RequestContext(edit)
      + ". Make sure the names are correct and that you have scrobbled recently."
  }

  /** The album information of a result: the original album and album artist. */
  function AlbumInfo(e: ExactScrobbleEdit): string {
    e.albumNameOriginal + " by " + e.albumArtistNameOriginal
  }

  /**
   * The result for one discovered variation: the request overlaid on it,
   * submitted with three retries, and the single response's verdict and
   * summary kept.
   */
  function ResultFor(edit: ScrobbleEdit, found: ExactScrobbleEdit,
                     submit: ExactScrobbleEdit -> nat -> Result<bool, LastFmError>): SingleEditResponse {
    var modified := Overlay(found, edit);
    var single := SingleOutcome(modified, EditRetries, Run(SubmitRetryConfig(EditRetries), submit(modified), None, 0, 0).result);
    SingleEditResponse(Success(single), Message(single), Some(AlbumInfo(modified)), modified)
  }

  /** The outcome of an edit request given the outcome of discovering its variations. */
  function EditOutcome(edit: ScrobbleEdit, discovered: Result<seq<ExactScrobbleEdit>, LastFmError>,
                       submit: ExactScrobbleEdit -> nat -> Result<bool, LastFmError>): Result<EditResponse, LastFmError>
  {
    match discovered
    case Err(e) => Err(e)
    case Ok(found) =>
      if found == [] then Err(Parse(NoScrobblesMessage(edit)))
      else Ok(EditResponse(seq(|found|, i requires 0 <= i < |found| => ResultFor(edit, found[i], submit))))
  }

  /**
   * The loop of `edit_scrobble` over the discovered variations, one
   * `edit_scrobble_single` per variation, in discovery order.
   */
  method EditDiscovered(edit: ScrobbleEdit, discovered: Result<seq<ExactScrobbleEdit>, LastFmError>,
                        submit: ExactScrobbleEdit -> nat -> Result<bool, LastFmError>)
    returns (r: Result<EditResponse, LastFmError>)
    ensures r == EditOutcome(edit, discovered, submit)
  {
    if discovered.Err? {
      return Err(discovered.error);
    }
    var found := discovered.value;
    if |found| == 0 {
      return Err(Parse(NoScrobblesMessage(edit)));
    }
    var results: seq<SingleEditResponse> := [];
    for i := 0 to |found|
      invariant |results| == i
      invariant forall j :: 0 <= j < i ==> results[j] == ResultFor(edit, found[j], submit)
    {
      var modified := Overlay(found[i], edit);
      var albumInfo := modified.albumNameOriginal + " by " + modified.albumArtistNameOriginal;
      var single := EditScrobbleSingle(modified, EditRetries, submit(modified));
      results := results + [SingleEditResponse(Success(single), Message(single), Some(albumInfo), modified)];
    }
    assert results == seq(|found|, i requires 0 <= i < |found| => ResultFor(edit, found[i], submit));
    r := Ok(EditResponse(results));
  }

  /**
   * `edit_scrobble`: discovers the variations of the request's scrobbles in
   * `library`, then edits each one. `discovered` is what discovery found.
   */
  method EditScrobble(edit: ScrobbleEdit, library: Discovery.Library,
                      submit: ExactScrobbleEdit -> nat -> Result<bool, LastFmError>)
    returns (r: Result<EditResponse, LastFmError>, ghost discovered: Result<seq<ExactScrobbleEdit>, LastFmError>)
    ensures r == EditOutcome(edit, discovered, submit)
    ensures discovered.Ok? ==> forall e :: e in discovered.value ==> DiscoveryCommon.Shaped(e, edit)
  {
    var found := Discovery.DiscoverScrobbleEditVariations(edit, library);
    discovered := found;
    r := EditDiscovered(edit, found, submit);
  }

  /**
   * A discovery error is passed on and an empty discovery is a parse error;
   * otherwise there is one result per variation, in order, each holding the
   * request overlaid on its variation and that variation's album, with the
   * summary of its single edit as its message.
   */
  lemma EditOutcomeFacts(edit: ScrobbleEdit, discovered: Result<seq<ExactScrobbleEdit>, LastFmError>,
                         submit: ExactScrobbleEdit -> nat -> Result<bool, LastFmError>)
    ensures discovered.Err? ==> EditOutcome(edit, discovered, submit) == Err(discovered.error)
    ensures discovered == Ok([]) ==> EditOutcome(edit, discovered, submit) == Err(Parse(NoScrobblesMessage(edit)))
    ensures var r := EditOutcome(edit, discovered, submit);
      r.Ok? ==>
        discovered.Ok? && TotalEdits(r.value) == |discovered.value| > 0
        && forall i :: 0 <= i < |discovered.value| ==>
             var res := r.value.individualResults[i];
             var found := discovered.value[i];
             res.exactScrobbleEdit == Overlay(found, edit)
             && res.albumInfo == Some(found.albumNameOriginal + " by " + found.albumArtistNameOriginal)
             && res.message == Some(if res.success then "Edit completed successfully" else "Edit failed")
  {
    var r := EditOutcome(edit, discovered, submit);
    if r.Ok? {
      forall i | 0 <= i < |discovered.value|
        ensures var res := r.value.individualResults[i];
          res.message == Some(if res.success then "Edit completed successfully" else "Edit failed")
      {
        var modified := Overlay(discovered.value[i], edit);
        var single := SingleOutcome(modified, EditRetries,
                                    Run(SubmitRetryConfig(EditRetries), submit(modified), None, 0, 0).result);
        SummaryMessageCases(single);
        AnySuccessfulIffCount(single);
        AllSuccessfulIffCounts(single);
      }
    }
  }

  /**
   * A variation's result is successful exactly when the first submit of
   * its edit that is not rate limited, within three retries, answers `true`.
   */
  lemma EditResultSuccess(edit: ScrobbleEdit, found: ExactScrobbleEdit,
                          submit: ExactScrobbleEdit -> nat -> Result<bool, LastFmError>)
    ensures var op := submit(Overlay(found, edit));
      ResultFor(edit, found, submit).success
      <==> exists k :: 0 <= k <= EditRetries && op(k) == Ok(true) && forall j :: 0 <= j < k ==> IsRateLimit(op(j))
  {
    var op := submit(Overlay(found, edit));
    var config := SubmitRetryConfig(EditRetries);
    RunOk(config, op, None, 0, 0);
    if k :| 0 <= k <= EditRetries && op(k) == Ok(true) && forall j :: 0 <= j < k ==> IsRateLimit(op(j)) {
      RunFirstNotRateLimited(config, op, 0, 0, k);
    }
  }
}
