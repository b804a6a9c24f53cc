/**
 * `analyze_edit_response`: whether an edit submission really succeeded,
 * judged from the HTTP status and the alerts on the page Last.fm returns,
 * with a message and the track and album names that page shows.
 *
 * The page is given as what its selectors and text patterns find: whether
 * a success alert is present, the text of the first error alert, the text
 * of the first track and album cells, and the (already URL-decoded) names
 * the track-link and album-link patterns capture in the raw text.
 */
module EditAnalysis {
  import opened Wrappers
  import Text

  datatype ResponsePage = ResponsePage(
    hasSuccessAlert: bool,
    errorAlert: Option<string>,
    trackCell: Option<string>,
    albumCell: Option<string>,
    trackLink: Option<string>,
    albumLink: Option<string>)

  datatype EditAnalysisResult = EditAnalysisResult(
    success: bool,
    message: Option<string>,
    actualTrackName: Option<string>,
    actualAlbumName: Option<string>)

  /** `StatusCode::is_success`. */
  predicate IsSuccessStatus(status: nat) {
    200 <= status <= 299
  }

  const FailedPrefix := "Edit failed"
  const SuccessfulPrefix := "Edit successful"

  /** A name from its table cell (trimmed) when present, else from the raw-text pattern. */
  function FoundName(cell: Option<string>, link: Option<string>): Option<string> {
    if cell.Some? then Some(Text.Trim(cell.value)) else link
  }

  /**
   * `extract_track_album_names`: the cell selectors first; the raw-text
   * patterns only for a name the selectors did not find.
   */
  method ExtractTrackAlbumNames(page: ResponsePage) returns (trackName: Option<string>, albumName: Option<string>)
    ensures page.trackCell.Some? ==> trackName == Some(Text.Trim(page.trackCell.value))
    ensures page.trackCell.None? ==> trackName == page.trackLink
    ensures page.albumCell.Some? ==> albumName == Some(Text.Trim(page.albumCell.value))
    ensures page.albumCell.None? ==> albumName == page.albumLink
    ensures trackName == FoundName(page.trackCell, page.trackLink)
    ensures albumName == FoundName(page.albumCell, page.albumLink)
  {
    trackName := None;
    albumName := None;
    if page.trackCell.Some? {
      trackName := Some(Text.Trim(page.trackCell.value));
    }
    if page.albumCell.Some? {
      albumName := Some(Text.Trim(page.albumCell.value));
    }
    if trackName.None? || albumName.None? {
      if trackName.None? {
        trackName := page.trackLink;
      }
      if albumName.None? {
        albumName := page.albumLink;
      }
    }
  }

  function SuccessMessage(trackName: Option<string>, albumName: Option<string>): string {
    SuccessfulPrefix + " - Track: '" + trackName.UnwrapOr("unknown") + "', Album: '" + albumName.UnwrapOr("unknown") + "'"
  }

  /** `analyze_edit_response`. */
  function AnalyzeEditResponse(page: ResponsePage, status: nat): EditAnalysisResult {
    var trackName := FoundName(page.trackCell, page.trackLink);
    var albumName := FoundName(page.albumCell, page.albumLink);
    var success := IsSuccessStatus(status) && page.hasSuccessAlert && page.errorAlert.None?;
    var message :=
      if page.errorAlert.Some? then FailedPrefix + ": " + Text.Trim(page.errorAlert.value)
      else if success then SuccessMessage(trackName, albumName)
      else FailedPrefix + " with status: " + Text.NatToString(status);
    EditAnalysisResult(success, Some(message), trackName, albumName)
  }

  // ---------------------------------------------------------------------------
  // Facts
  // ---------------------------------------------------------------------------

  /**
   * An edit succeeded exactly when the status is 2xx, a success alert is
   * shown and no error alert is; an error alert decides the message whatever
   * the status; a message is always given, and it opens with "Edit
   * successful" exactly when the edit succeeded and with "Edit failed"
   * otherwise.
   */
  lemma AnalysisDecision(page: ResponsePage, status: nat)
    ensures var r := AnalyzeEditResponse(page, status);
      && (r.success <==> IsSuccessStatus(status) && page.hasSuccessAlert && page.errorAlert.None?)
      && r.message.Some?
      && (page.errorAlert.Some? ==> r.message.value == "Edit failed: " + Text.Trim(page.errorAlert.value))
      && (page.errorAlert.None? && !r.success ==>
            r.message.value == "Edit failed with status: " + Text.NatToString(status))
      && (r.success <==> |r.message.value| >= |SuccessfulPrefix| && r.message.value[..|SuccessfulPrefix|] == SuccessfulPrefix)
      && (!r.success <==> |r.message.value| >= |FailedPrefix| && r.message.value[..|FailedPrefix|] == FailedPrefix)
  {
    if page.errorAlert.Some? {
      AlertOpening(page, status);
    } else if IsSuccessStatus(status) && page.hasSuccessAlert {
      SuccessOpening(page, status);
    } else {
      StatusOpening(page, status);
    }
  }

  /** A successful analysis's message opens with "Edit successful" only. */
  lemma SuccessOpening(page: ResponsePage, status: nat)
    requires IsSuccessStatus(status) && page.hasSuccessAlert && page.errorAlert.None?
    ensures AnalyzeEditResponse(page, status).success && AnalyzeEditResponse(page, status).message.Some?
    ensures var m := AnalyzeEditResponse(page, status).message.value;
      && |m| >= |SuccessfulPrefix| && m[..|SuccessfulPrefix|] == SuccessfulPrefix
      && !(|m| >= |FailedPrefix| && m[..|FailedPrefix|] == FailedPrefix)
  {
    var r := AnalyzeEditResponse(page, status);
    var rest := " - Track: '" + r.actualTrackName.UnwrapOr("unknown") + "', Album: '"
      + r.actualAlbumName.UnwrapOr("unknown") + "'";
    assert r.message.value == SuccessfulPrefix + rest;
    OpensWithOneOf(SuccessfulPrefix, rest);
  }

  /** An error alert fails the edit with the alert's text, after "Edit failed" and nothing else. */
  lemma AlertOpening(page: ResponsePage, status: nat)
    requires page.errorAlert.Some?
    ensures var r := AnalyzeEditResponse(page, status);
      && !r.success && r.message == Some("Edit failed: " + Text.Trim(page.errorAlert.value))
      && !(|r.message.value| >= |SuccessfulPrefix| && r.message.value[..|SuccessfulPrefix|] == SuccessfulPrefix)
      && |r.message.value| >= |FailedPrefix| && r.message.value[..|FailedPrefix|] == FailedPrefix
  {
    var detail := Text.Trim(page.errorAlert.value);
    assert AnalyzeEditResponse(page, status).message == Some(FailedPrefix + ": " + detail);
    assert "Edit failed: " == "Edit failed" + ": ";
    FailedWith(": ", detail);
  }

  /** Without an error alert, a failure gives the status after "Edit failed" and nothing else. */
  lemma StatusOpening(page: ResponsePage, status: nat)
    requires page.errorAlert.None? && !(IsSuccessStatus(status) && page.hasSuccessAlert)
    ensures var r := AnalyzeEditResponse(page, status);
      && !r.success && r.message == Some("Edit failed with status: " + Text.NatToString(status))
      && !(|r.message.value| >= |SuccessfulPrefix| && r.message.value[..|SuccessfulPrefix|] == SuccessfulPrefix)
      && |r.message.value| >= |FailedPrefix| && r.message.value[..|FailedPrefix|] == FailedPrefix
  {
    var code := Text.NatToString(status);
    assert AnalyzeEditResponse(page, status).message == Some(FailedPrefix + " with status: " + code);
    assert "Edit failed with status: " == "Edit failed" + " with status: ";
    FailedWith(" with status: ", code);
  }

  /** A failure message, "Edit failed" then a separator and a detail, opens with "Edit failed" only. */
  lemma FailedWith(separator: string, detail: string)
    ensures var m := FailedPrefix + separator + detail;
      && m == "Edit failed" + separator + detail
      && !(|m| >= |SuccessfulPrefix| && m[..|SuccessfulPrefix|] == SuccessfulPrefix)
      && |m| >= |FailedPrefix| && m[..|FailedPrefix|] == FailedPrefix
  {
    assert FailedPrefix + separator + detail == FailedPrefix + (separator + detail);
    OpensWithOneOf(FailedPrefix, separator + detail);
  }

  /** A text opens with at most one of the two prefixes, and with the one it is built from. */
  lemma OpensWithOneOf(prefix: string, rest: string)
    requires prefix == SuccessfulPrefix || prefix == FailedPrefix
    ensures var m := prefix + rest;
      && (prefix == SuccessfulPrefix <==> |m| >= |SuccessfulPrefix| && m[..|SuccessfulPrefix|] == SuccessfulPrefix)
      && (prefix == FailedPrefix <==> |m| >= |FailedPrefix| && m[..|FailedPrefix|] == FailedPrefix)
  {
    var m := prefix + rest;
    assert m[..|prefix|] == prefix;
    if prefix == SuccessfulPrefix {
      assert m[5] == 's' != FailedPrefix[5];
    } else {
      assert m[5] == 'f' != SuccessfulPrefix[5];
    }
  }

  /**
   * The raw-text patterns matter only for a name its cell did not give: with
   * both cells present the result does not depend on them, and with a cell
   * missing the name is the pattern's capture.
   */
  lemma TextFallbackOnlyWhenMissing(page: ResponsePage, status: nat, trackLink: Option<string>, albumLink: Option<string>)
    ensures page.trackCell.Some? && page.albumCell.Some? ==>
      AnalyzeEditResponse(page.(trackLink := trackLink, albumLink := albumLink), status) == AnalyzeEditResponse(page, status)
    ensures page.trackCell.None? ==> AnalyzeEditResponse(page, status).actualTrackName == page.trackLink
    ensures page.albumCell.None? ==> AnalyzeEditResponse(page, status).actualAlbumName == page.albumLink
  {
  }

  /** The names found decide neither success nor a failure message. */
  lemma NamesDoNotDecide(page: ResponsePage, other: ResponsePage, status: nat)
    requires other.hasSuccessAlert == page.hasSuccessAlert && other.errorAlert == page.errorAlert
    ensures AnalyzeEditResponse(other, status).success == AnalyzeEditResponse(page, status).success
    ensures !AnalyzeEditResponse(page, status).success ==>
      AnalyzeEditResponse(other, status).message == AnalyzeEditResponse(page, status).message
  {
  }
}
