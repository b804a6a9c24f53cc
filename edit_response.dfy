/**
 * Aggregation over the per-scrobble results of an edit request
 * (`EditResponse`): success counts, the all/any verdicts and the summary and
 * per-result messages shown to the user.
 */
module EditResponses {
  import opened Wrappers
  import opened LastFmTypes
  import Text

  /** `EditResponse::single`: a response holding exactly one result. */
  function Single(success: bool, message: Option<string>, albumInfo: Option<string>,
                  edit: ExactScrobbleEdit): (r: EditResponse)
    ensures IsSingleEdit(r) && TotalEdits(r) == 1
    ensures r.individualResults[0] == SingleEditResponse(success, message, albumInfo, edit)
    ensures AllSuccessful(r) <==> success
  {
    EditResponse([SingleEditResponse(success, message, albumInfo, edit)])
  }

  /** `total_edits`. */
  function TotalEdits(r: EditResponse): nat {
    |r.individualResults|
  }

  /** The number of successful results in `rs`. */
  function CountSuccessful(rs: seq<SingleEditResponse>): (n: nat)
    ensures n <= |rs|
  {
    if |rs| == 0 then 0
    else CountSuccessful(rs[..|rs| - 1]) + (if rs[|rs| - 1].success then 1 else 0)
  }

  /** The number of failed results in `rs`. */
  function CountFailed(rs: seq<SingleEditResponse>): nat {
    if |rs| == 0 then 0
    else CountFailed(rs[..|rs| - 1]) + (if rs[|rs| - 1].success then 0 else 1)
  }

  /** `successful_edits`. */
  function SuccessfulEdits(r: EditResponse): nat {
    CountSuccessful(r.individualResults)
  }

  /** `failed_edits`. */
  function FailedEdits(r: EditResponse): nat {
    CountFailed(r.individualResults)
  }

  /** `all_successful`: there is at least one result and every result succeeded. */
  predicate AllSuccessful(r: EditResponse) {
    |r.individualResults| > 0 && forall i :: 0 <= i < |r.individualResults| ==> r.individualResults[i].success
  }

  /** `any_successful`: some result succeeded. */
  predicate AnySuccessful(r: EditResponse) {
    exists i :: 0 <= i < |r.individualResults| && r.individualResults[i].success
  }

  /** `success`, which is `all_successful`. */
  predicate Success(r: EditResponse) {
    AllSuccessful(r)
  }

  /** `is_single_edit`. */
  predicate IsSingleEdit(r: EditResponse) {
    |r.individualResults| == 1
  }

  /** Every result is either a success or a failure. */
  lemma {:induction false} CountsAddUp(rs: seq<SingleEditResponse>)
    ensures CountSuccessful(rs) + CountFailed(rs) == |rs|
    decreases |rs|
  {
    if |rs| > 0 {
      CountsAddUp(rs[..|rs| - 1]);
    }
  }

  /** The success count reaches the length exactly when every result succeeded. */
  lemma {:induction false} CountSuccessfulAll(rs: seq<SingleEditResponse>)
    ensures CountSuccessful(rs) == |rs| <==> forall i :: 0 <= i < |rs| ==> rs[i].success
    decreases |rs|
  {
    if |rs| > 0 {
      var init := rs[..|rs| - 1];
      CountSuccessfulAll(init);
      assert forall i :: 0 <= i < |init| ==> init[i] == rs[i];
    }
  }

  /** The success count is zero exactly when no result succeeded. */
  lemma {:induction false} CountSuccessfulNone(rs: seq<SingleEditResponse>)
    ensures CountSuccessful(rs) == 0 <==> forall i :: 0 <= i < |rs| ==> !rs[i].success
    decreases |rs|
  {
    if |rs| > 0 {
      var init := rs[..|rs| - 1];
      CountSuccessfulNone(init);
      assert forall i :: 0 <= i < |init| ==> init[i] == rs[i];
    }
  }

  /** `successful_edits + failed_edits = total_edits`. */
  lemma EditCountsAddUp(r: EditResponse)
    ensures SuccessfulEdits(r) + FailedEdits(r) == TotalEdits(r)
  {
    CountsAddUp(r.individualResults);
  }

  /** `all_successful` holds iff there are results and all of them are counted as successful. */
  lemma AllSuccessfulIffCounts(r: EditResponse)
    ensures Success(r) <==> AllSuccessful(r)
    ensures AllSuccessful(r) <==> TotalEdits(r) > 0 && SuccessfulEdits(r) == TotalEdits(r)
    ensures AllSuccessful(r) <==> TotalEdits(r) > 0 && FailedEdits(r) == 0
  {
    CountSuccessfulAll(r.individualResults);
    CountsAddUp(r.individualResults);
  }

  /** `any_successful` holds iff `successful_edits > 0`. */
  lemma AnySuccessfulIffCount(r: EditResponse)
    ensures AnySuccessful(r) <==> SuccessfulEdits(r) > 0
  {
    CountSuccessfulNone(r.individualResults);
  }

  /** `summary_message`. */
  function SummaryMessage(r: EditResponse): string {
    var total := TotalEdits(r);
    var successful := SuccessfulEdits(r);
    var failed := FailedEdits(r);
    if total == 0 then "No edit operations performed"
    else if successful == total then
      (if total == 1 then "Edit completed successfully"
       else "All " + Text.NatToString(total) + " edits completed successfully")
    else if successful == 0 then
      (if total == 1 then "Edit failed" else "All " + Text.NatToString(total) + " edits failed")
    else
      Text.NatToString(successful) + " of " + Text.NatToString(total) + " edits succeeded, "
      + Text.NatToString(failed) + " failed"
  }

  /** The summary says that nothing was done exactly when there are no results. */
  lemma SummaryMessageEmpty(r: EditResponse)
    ensures TotalEdits(r) == 0 <==> SummaryMessage(r) == "No edit operations performed"
  {
    var m := SummaryMessage(r);
    if TotalEdits(r) > 0 {
      // Every other summary starts with `E`, `A` or a digit.
      if SuccessfulEdits(r) == TotalEdits(r) || SuccessfulEdits(r) == 0 {
        assert m[0] == 'E' || m[0] == 'A';
      } else {
        assert m[0] == Text.NatToString(SuccessfulEdits(r))[0];
        assert Text.IsDigit(m[0]);
      }
    }
  }

  /**
   * The summary names the situation: all succeeded, none succeeded, or a
   * mixed outcome that reports both counts.
   */
  lemma SummaryMessageCases(r: EditResponse)
    ensures AllSuccessful(r) && TotalEdits(r) == 1 ==> SummaryMessage(r) == "Edit completed successfully"
    ensures AllSuccessful(r) && TotalEdits(r) > 1 ==>
      SummaryMessage(r) == "All " + Text.NatToString(TotalEdits(r)) + " edits completed successfully"
    ensures TotalEdits(r) == 1 && !AnySuccessful(r) ==> SummaryMessage(r) == "Edit failed"
    ensures TotalEdits(r) > 1 && !AnySuccessful(r) ==>
      SummaryMessage(r) == "All " + Text.NatToString(TotalEdits(r)) + " edits failed"
    ensures AnySuccessful(r) && !AllSuccessful(r) ==>
      SummaryMessage(r) == Text.NatToString(SuccessfulEdits(r)) + " of " + Text.NatToString(TotalEdits(r))
        + " edits succeeded, " + Text.NatToString(TotalEdits(r) - SuccessfulEdits(r)) + " failed"
  {
    AllSuccessfulIffCounts(r);
    AnySuccessfulIffCount(r);
    EditCountsAddUp(r);
    var total := TotalEdits(r);
    var successful := SuccessfulEdits(r);
    if total > 0 && successful != total && successful != 0 {
      assert FailedEdits(r) == total - successful;
    }
  }

  /** `message`: the summary, always present. */
  function Message(r: EditResponse): (m: Option<string>)
    ensures m == Some(SummaryMessage(r))
  {
    Some(SummaryMessage(r))
  }

  /** The ` (info)` suffix of a detailed message, or nothing. */
  function AlbumInfoSuffix(info: Option<string>): string {
    if info.Some? then " (" + info.value + ")" else ""
  }

  /** `detailed_messages`: one line per result, numbered from 1, in result order. */
  function DetailedMessages(r: EditResponse): (lines: seq<string>)
    ensures |lines| == TotalEdits(r)
    ensures forall i :: 0 <= i < |lines| ==>
      var res := r.individualResults[i];
      lines[i] == Text.NatToString(i + 1) + ": "
        + (if res.message.Some? then res.message.value else if res.success then "Success" else "Failed")
        + AlbumInfoSuffix(res.albumInfo)
  {
    seq(|r.individualResults|, i requires 0 <= i < |r.individualResults| =>
      var res := r.individualResults[i];
      Text.NatToString(i + 1) + ": "
        + (if res.message.Some? then res.message.value else if res.success then "Success" else "Failed")
        + AlbumInfoSuffix(res.albumInfo))
  }

  /** Each line opens with its position, counted from 1, written out before the line's first `:`. */
  lemma DetailedMessageNumber(r: EditResponse, i: nat)
    requires i < TotalEdits(r)
    ensures var head := Text.SplitOnce(DetailedMessages(r)[i], ':');
      head.Some? && |head.value.0| > 0 && Text.AllDigits(head.value.0) && Text.DigitsValue(head.value.0) == i + 1
  {
    var n := Text.NatToString(i + 1);
    var res := r.individualResults[i];
    var rest := " " + (if res.message.Some? then res.message.value else if res.success then "Success" else "Failed")
      + AlbumInfoSuffix(res.albumInfo);
    assert DetailedMessages(r)[i] == n + [':'] + rest;
    assert ':' !in n by {
      forall k | 0 <= k < |n| ensures n[k] != ':' {
        assert Text.IsDigit(n[k]);
      }
    }
    Text.IndexOfAfterFree(n, ':', rest);
    assert (n + [':'] + rest)[..|n|] == n;
    assert Text.SplitOnce(DetailedMessages(r)[i], ':').value.0 == n;
    Text.NatToStringValue(i + 1);
  }

  /**
   * A result's own message is shown whenever it has one; without one the
   * line says `Success` exactly when the result succeeded, and `Failed` otherwise.
   */
  lemma DetailedMessageOutcome(r: EditResponse, i: nat)
    requires i < TotalEdits(r)
    ensures var res := r.individualResults[i];
      var head := Text.NatToString(i + 1) + ": ";
      var tail := AlbumInfoSuffix(res.albumInfo);
      && (res.message.Some? ==> DetailedMessages(r)[i] == head + res.message.value + tail)
      && (res.message.None? ==> (DetailedMessages(r)[i] == head + "Success" + tail <==> res.success))
      && (res.message.None? ==> (DetailedMessages(r)[i] == head + "Failed" + tail <==> !res.success))
  {
    var res := r.individualResults[i];
    var head := Text.NatToString(i + 1) + ": ";
    var tail := AlbumInfoSuffix(res.albumInfo);
    assert |head + "Success" + tail| != |head + "Failed" + tail|;
  }

  /** No two results share a line: the numbers set them apart. */
  lemma DetailedMessagesDistinct(r: EditResponse, i: nat, j: nat)
    requires i < j < TotalEdits(r)
    ensures DetailedMessages(r)[i] != DetailedMessages(r)[j]
  {
    DetailedMessageNumber(r, i);
    DetailedMessageNumber(r, j);
  }
}
