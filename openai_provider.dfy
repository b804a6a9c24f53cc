/**
 * The OpenAI-backed action provider, without its transport: the model
 * name it asks for, the conversion of a suggested rewrite rule into a rule,
 * and how the tool calls in the model's reply become suggestions grouped
 * by track.
 *
 * The reply is given as its tool calls, or as the API error; each call's
 * JSON arguments are decoded by the given decoders.
 */
module OpenAiProvider {
  import opened Wrappers
  import opened LastFmTypes
  import opened RewriteInterface
  import opened ScrubActionProviders

  // ---------------------------------------------------------------------------
  // Model name
  // ---------------------------------------------------------------------------

  const Gpt4o := "gpt-4o"
  const KnownModels: seq<string> := ["gpt-4", "gpt-4-turbo", "gpt-4o", "gpt-4o-mini", "gpt-3.5-turbo"]

  /** The model asked for: a known name as given, anything else GPT-4o. */
  function ModelName(model: Option<string>): (r: string)
    ensures r in KnownModels
    ensures model.Some? && model.value in KnownModels ==> r == model.value
    ensures model.None? || model.value !in KnownModels ==> r == Gpt4o
  {
    match model
    case Some("gpt-4") => "gpt-4"
    case Some("gpt-4-turbo") => "gpt-4-turbo"
    case Some("gpt-4o") => Gpt4o
    case Some("gpt-4o-mini") => "gpt-4o-mini"
    case Some("gpt-3.5-turbo") => "gpt-3.5-turbo"
    case _ => Gpt4o
  }

  /** Asking again for the chosen model chooses it again. */
  lemma ModelNameStable(model: Option<string>)
    ensures ModelName(Some(ModelName(model))) == ModelName(model)
  {
  }

  // ---------------------------------------------------------------------------
  // Rules from suggestions
  // ---------------------------------------------------------------------------

  const TargetFields: seq<string> := ["track_name", "artist_name", "album_name", "album_artist_name"]

  /** The new rule that applies `step` to the named field; no rule for any other name. */
  function TargetRule(field: string, step: SdRule): (r: Option<RewriteRule>)
    ensures r.Some? <==> field in TargetFields
    ensures r.Some? ==>
      && !r.value.requiresConfirmation
      && r.value.trackName == (if field == "track_name" then Some(step) else None)
      && r.value.artistName == (if field == "artist_name" then Some(step) else None)
      && r.value.albumName == (if field == "album_name" then Some(step) else None)
      && r.value.albumArtistName == (if field == "album_artist_name" then Some(step) else None)
  {
    match field
    case "track_name" => Some(NewRule().(trackName := Some(step)))
    case "artist_name" => Some(NewRule().(artistName := Some(step)))
    case "album_name" => Some(NewRule().(albumName := Some(step)))
    case "album_artist_name" => Some(NewRule().(albumArtistName := Some(step)))
    case _ => None
  }

  /** The step a suggestion describes: flags only when given, a bound only when positive. */
  function BuildStep(find: string, replace: string, isLiteral: bool, flags: Option<string>, maxReplacements: nat): SdRule {
    var step := NewSdRule(find, replace, isLiteral);
    var step := if flags.Some? then step.(flags := flags) else step;
    if maxReplacements > 0 then step.(maxReplacements := maxReplacements) else step
  }

  /** Since a new step has no flags and no bound, the built step carries the values as given. */
  lemma BuildStepCarriesValues(find: string, replace: string, isLiteral: bool, flags: Option<string>, maxReplacements: nat)
    ensures BuildStep(find, replace, isLiteral, flags, maxReplacements) == SdRule(find, replace, isLiteral, flags, maxReplacements)
  {
  }

  /** `RewriteRuleSuggestion`. */
  datatype RewriteRuleSuggestion = RewriteRuleSuggestion(
    find: string, replace: string, targetField: string, isLiteral: bool,
    flags: Option<string>, maxReplacements: nat, motivation: string)

  /**
   * `into_rule_and_motivation`: a rule for one of the four fields, with the
   * motivation; any other field name is an error naming it.
   */
  function IntoRuleAndMotivation(s: RewriteRuleSuggestion): (r: Result<(RewriteRule, string), ActionProviderError>)
    ensures r.Ok? <==> s.targetField in TargetFields
    ensures r.Err? ==> r.error == ActionProviderError("Invalid target field: " + s.targetField)
    ensures r.Ok? ==>
      r.value.1 == s.motivation
      && Some(r.value.0) == TargetRule(s.targetField, SdRule(s.find, s.replace, s.isLiteral, s.flags, s.maxReplacements))
  {
    var step := BuildStep(s.find, s.replace, s.isLiteral, s.flags, s.maxReplacements);
    match TargetRule(s.targetField, step)
    case None => Err(ActionProviderError("Invalid target field: " + s.targetField))
    case Some(rule) => Ok((rule, s.motivation))
  }

  // ---------------------------------------------------------------------------
  // Tool calls
  // ---------------------------------------------------------------------------

  /** The arguments of `suggest_track_edit`. */
  datatype EditCallArgs = EditCallArgs(
    trackIndex: nat, newTrackName: Option<string>, newArtistName: Option<string>,
    newAlbumName: Option<string>, newAlbumArtistName: Option<string>, reason: string)

  /** The arguments of `suggest_rewrite_rule`. */
  datatype RuleCallArgs = RuleCallArgs(
    trackIndex: nat, find: string, replace: string, targetField: string, isLiteral: bool,
    flags: Option<string>, maxReplacements: Option<nat>, motivation: string)

  /** A tool call of the reply: the function's name and its JSON arguments, each possibly absent. */
  datatype ToolCall = ToolCall(name: Option<string>, arguments: Option<string>)

  /** The JSON decoders for the two functions' arguments; a failure is the decoder's message. */
  datatype Decoders = Decoders(
    edit: string -> Result<EditCallArgs, string>,
    rule: string -> Result<RuleCallArgs, string>)

  /**
   * The edit a `suggest_track_edit` call asks for over the track's no-op
   * edit: each name given replaces the current one, and a new artist also
   * becomes the album artist unless an album artist is given too.
   */
  function SuggestedEdit(base: RuleEdit, a: EditCallArgs): RuleEdit {
    var edit := if a.newTrackName.Some? then base.(trackName := a.newTrackName.value) else base;
    var edit := if a.newArtistName.Some? then edit.(artistName := a.newArtistName.value,
                                                    albumArtistName := a.newArtistName.value) else edit;
    var edit := if a.newAlbumName.Some? then edit.(albumName := a.newAlbumName.value) else edit;
    if a.newAlbumArtistName.Some? then edit.(albumArtistName := a.newAlbumArtistName.value) else edit
  }

  lemma SuggestedEditFields(base: RuleEdit, a: EditCallArgs)
    ensures var e := SuggestedEdit(base, a);
      && e.trackName == a.newTrackName.UnwrapOr(base.trackName)
      && e.artistName == a.newArtistName.UnwrapOr(base.artistName)
      && e.albumName == a.newAlbumName.UnwrapOr(base.albumName)
      && e.albumArtistName == a.newAlbumArtistName.UnwrapOr(a.newArtistName.UnwrapOr(base.albumArtistName))
      && e.trackNameOriginal == base.trackNameOriginal && e.artistNameOriginal == base.artistNameOriginal
      && e.albumNameOriginal == base.albumNameOriginal && e.albumArtistNameOriginal == base.albumArtistNameOriginal
  {
  }

  /** The rule a `suggest_rewrite_rule` call asks for; none for an unknown field. */
  function RuleFromCall(a: RuleCallArgs): Option<RewriteRule> {
    var bound := if a.maxReplacements.Some? then a.maxReplacements.value else 0;
    TargetRule(a.targetField, BuildStep(a.find, a.replace, a.isLiteral, a.flags, bound))
  }

  /**
   * A batch rule call builds the rule `into_rule_and_motivation` builds from
   * the same values; where that conversion fails on the field name, the
   * call is skipped instead.
   */
  lemma RuleFromCallAgrees(a: RuleCallArgs)
    ensures var s := RewriteRuleSuggestion(a.find, a.replace, a.targetField, a.isLiteral, a.flags,
                                           a.maxReplacements.UnwrapOr(0), a.motivation);
      && (RuleFromCall(a).None? <==> IntoRuleAndMotivation(s).Err?)
      && (RuleFromCall(a).Some? ==> IntoRuleAndMotivation(s) == Ok((RuleFromCall(a).value, a.motivation)))
  {
  }

  const EditFunction := "suggest_track_edit"
  const RuleFunction := "suggest_rewrite_rule"
  const NoActionFunction := "no_action_needed"

  /**
   * What one tool call contributes: a decoding error, nothing, or a
   * suggestion for a track index of the batch.
   */
  function CallSuggestion(call: ToolCall, tracks: seq<Track>, noOpEdit: Track -> RuleEdit, decoders: Decoders)
    : Result<Option<(nat, ScrubActionSuggestion)>, ActionProviderError>
  {
    if call.name.None? || call.arguments.None? then Ok(None)
    else if call.name.value == EditFunction then
      match decoders.edit(call.arguments.value)
      case Err(e) => Err(ActionProviderError("Failed to parse function arguments: " + e))
      case Ok(a) =>
        if a.trackIndex >= |tracks| then Ok(None)
        else Ok(Some((a.trackIndex, Edit(SuggestedEdit(noOpEdit(tracks[a.trackIndex]), a)))))
    else if call.name.value == RuleFunction then
      match decoders.rule(call.arguments.value)
      case Err(e) => Err(ActionProviderError("Failed to parse rewrite rule arguments: " + e))
      case Ok(a) =>
        if a.trackIndex >= |tracks| then Ok(None)
        else
          match RuleFromCall(a)
          case None => Ok(None)
          case Some(rule) => Ok(Some((a.trackIndex, ProposeRule(rule, a.motivation))))
    else Ok(None)
  }

  /**
   * A call contributes only through the two suggestion functions and only
   * for a track of the batch; `no_action_needed` and unknown names add
   * nothing, and so do rule calls naming an unknown field.
   */
  lemma CallSuggestionFacts(call: ToolCall, tracks: seq<Track>, noOpEdit: Track -> RuleEdit, decoders: Decoders)
    ensures var r := CallSuggestion(call, tracks, noOpEdit, decoders);
      && (r.Ok? && r.value.Some? ==>
            r.value.value.0 < |tracks| && call.name.Some? && call.name.value in {EditFunction, RuleFunction})
      && (r.Err? ==> call.name.Some? && call.name.value in {EditFunction, RuleFunction})
      && (call.name.Some? && call.name.value !in {EditFunction, RuleFunction} ==> r == Ok(None))
      && ((call.name == Some(RuleFunction) && call.arguments.Some? && decoders.rule(call.arguments.value).Ok?
           && decoders.rule(call.arguments.value).value.targetField !in TargetFields) ==> r == Ok(None))
  {
  }

  // ---------------------------------------------------------------------------
  // Grouping by track
  // ---------------------------------------------------------------------------

  /** Where the entry for `index` is, if there is one. */
  function Position<S>(results: seq<(nat, seq<S>)>, index: nat): (r: Option<nat>)
    ensures r.Some? ==> r.value < |results| && results[r.value].0 == index
    ensures r.None? ==> forall j :: 0 <= j < |results| ==> results[j].0 != index
    decreases |results|
  {
    if results == [] then None
    else if results[|results| - 1].0 == index then Some(|results| - 1)
    else Position(results[..|results| - 1], index)
  }

  /** Adding a suggestion: appended to its track's entry, or a new entry at the end. */
  function AddTo<S>(results: seq<(nat, seq<S>)>, index: nat, s: S): seq<(nat, seq<S>)> {
    match Position(results, index)
    case Some(j) => results[j := (index, results[j].1 + [s])]
    case None => results + [(index, [s])]
  }

  /** The `iter_mut().find` and `push` of the accumulation. */
  method AddSuggestion<S>(results: seq<(nat, seq<S>)>, index: nat, s: S) returns (updated: seq<(nat, seq<S>)>)
    requires forall i, j :: 0 <= i < j < |results| ==> results[i].0 != results[j].0
    ensures updated == AddTo(results, index, s)
  {
    var j := 0;
    while j < |results|
      invariant 0 <= j <= |results|
      invariant forall k :: 0 <= k < j ==> results[k].0 != index
    {
      if results[j].0 == index {
        assert Position(results, index) == Some(j);
        return results[j := (index, results[j].1 + [s])];
      }
      j := j + 1;
    }
    updated := results + [(index, [s])];
  }

  /** The accumulated results for the suggestions `pairs`, in order. */
  function Group<S>(pairs: seq<(nat, S)>): seq<(nat, seq<S>)> {
    if pairs == [] then []
    else
      var last := pairs[|pairs| - 1];
      AddTo(Group(pairs[..|pairs| - 1]), last.0, last.1)
  }

  /** The indices of `pairs`, each once, in the order they first appear. */
  function FirstAppearances<S>(pairs: seq<(nat, S)>): (r: seq<nat>)
    ensures forall i, j :: 0 <= i < j < |r| ==> r[i] != r[j]
    ensures forall i :: 0 <= i < |pairs| ==> pairs[i].0 in r
    ensures forall x :: x in r ==> exists i :: 0 <= i < |pairs| && pairs[i].0 == x
  {
    if pairs == [] then []
    else
      var init := pairs[..|pairs| - 1];
      var rest := FirstAppearances(init);
      var x := pairs[|pairs| - 1].0;
      assert forall i :: 0 <= i < |init| ==> pairs[i] == init[i];
      if x in rest then rest else rest + [x]
  }

  /** The suggestions of `pairs` for `index`, in order. */
  function Filter<S>(pairs: seq<(nat, S)>, index: nat): (r: seq<S>)
    ensures (forall i :: 0 <= i < |pairs| ==> pairs[i].0 != index) ==> r == []
  {
    if pairs == [] then []
    else
      var init := pairs[..|pairs| - 1];
      assert forall i :: 0 <= i < |init| ==> pairs[i] == init[i];
      Filter(init, index) + (if pairs[|pairs| - 1].0 == index then [pairs[|pairs| - 1].1] else [])
  }

  function Indices<S>(results: seq<(nat, seq<S>)>): seq<nat> {
    seq(|results|, i requires 0 <= i < |results| => results[i].0)
  }

  /**
   * The results have one entry per track index, in the order the indices
   * first appear, and each entry holds that track's suggestions in order.
   */
  lemma {:induction false} GroupFacts<S>(pairs: seq<(nat, S)>)
    ensures Indices(Group(pairs)) == FirstAppearances(pairs)
    ensures forall j :: 0 <= j < |Group(pairs)| ==> Group(pairs)[j].1 == Filter(pairs, Group(pairs)[j].0)
  {
    if pairs != [] {
      var init := pairs[..|pairs| - 1];
      var last := pairs[|pairs| - 1];
      GroupFacts(init);
      var g := Group(init);
      var g' := Group(pairs);
      assert g' == AddTo(g, last.0, last.1);
      assert forall j :: 0 <= j < |g| ==> g[j].0 == Indices(g)[j];
      match Position(g, last.0)
      case Some(p) =>
        assert last.0 in FirstAppearances(init) by {
          assert Indices(g)[p] == last.0;
        }
        assert Indices(g') == Indices(g);
        forall j | 0 <= j < |g'| ensures g'[j].1 == Filter(pairs, g'[j].0) {
          if j != p {
            assert Indices(g)[j] != Indices(g)[p];
            assert g'[j] == g[j] && g[j].0 != last.0;
          }
        }
      case None =>
        assert last.0 !in FirstAppearances(init) by {
          forall k | 0 <= k < |Indices(g)|
            ensures Indices(g)[k] != last.0
          {
            assert g[k].0 != last.0;
          }
        }
        assert Indices(g') == Indices(g) + [last.0];
        assert Filter(init, last.0) == [] by {
          forall i | 0 <= i < |init|
            ensures init[i].0 != last.0
          {
            assert init[i].0 in FirstAppearances(init);
          }
        }
        forall j | 0 <= j < |g'| ensures g'[j].1 == Filter(pairs, g'[j].0) {
          if j < |g| {
            assert g'[j] == g[j] && g[j].0 != last.0;
          }
        }
    }
  }

  /** The results hold one entry per track index. */
  lemma GroupDistinct<S>(pairs: seq<(nat, S)>)
    ensures var g := Group(pairs); forall i, j :: 0 <= i < j < |g| ==> g[i].0 != g[j].0
  {
    var g := Group(pairs);
    GroupFacts(pairs);
    assert forall j :: 0 <= j < |g| ==> g[j].0 == Indices(g)[j];
  }

  /** The suggestions of the first `n` calls, in order, or the first decoding error. */
  function Suggestions(calls: seq<ToolCall>, n: nat, tracks: seq<Track>, noOpEdit: Track -> RuleEdit, decoders: Decoders)
    : Result<seq<(nat, ScrubActionSuggestion)>, ActionProviderError>
    requires n <= |calls|
  {
    if n == 0 then Ok([])
    else
      match Suggestions(calls, n - 1, tracks, noOpEdit, decoders)
      case Err(e) => Err(e)
      case Ok(pairs) =>
        match CallSuggestion(calls[n - 1], tracks, noOpEdit, decoders)
        case Err(e) => Err(e)
        case Ok(found) => if found.Some? then Ok(pairs + [found.value]) else Ok(pairs)
  }

  /**
   * `analyze_tracks`: an empty batch gives no results; otherwise an API
   * error or the first decoding error fails the batch, and the suggestions
   * are grouped by track index.
   */
  function BatchSuggestions(tracks: seq<Track>, reply: Result<seq<ToolCall>, string>, noOpEdit: Track -> RuleEdit,
                            decoders: Decoders): Result<seq<(nat, seq<ScrubActionSuggestion>)>, ActionProviderError>
  {
    if tracks == [] then Ok([])
    else if reply.Err? then Err(ActionProviderError("OpenAI API error: " + reply.error))
    else
      match Suggestions(reply.value, |reply.value|, tracks, noOpEdit, decoders)
      case Err(e) => Err(e)
      case Ok(pairs) => Ok(Group(pairs))
  }

  /**
   * `analyze_tracks`: `called` tells whether the API was asked; it is not
   * for an empty batch.
   */
  method AnalyzeTracks(tracks: seq<Track>, reply: Result<seq<ToolCall>, string>, noOpEdit: Track -> RuleEdit,
                       decoders: Decoders) returns (r: Result<seq<(nat, seq<ScrubActionSuggestion>)>, ActionProviderError>, called: bool)
    ensures r == BatchSuggestions(tracks, reply, noOpEdit, decoders)
    ensures called <==> tracks != []
  {
    if tracks == [] {
      return Ok([]), false;
    }
    called := true;
    if reply.Err? {
      return Err(ActionProviderError("OpenAI API error: " + reply.error)), called;
    }
    var calls := reply.value;
    var results: seq<(nat, seq<ScrubActionSuggestion>)> := [];
    ghost var pairs: seq<(nat, ScrubActionSuggestion)> := [];
    var i := 0;
    while i < |calls|
      invariant 0 <= i <= |calls|
      invariant Suggestions(calls, i, tracks, noOpEdit, decoders) == Ok(pairs)
      invariant results == Group(pairs)
    {
      var c := CallSuggestion(calls[i], tracks, noOpEdit, decoders);
      if c.Err? {
        ErrorPersists(calls, i + 1, |calls|, tracks, noOpEdit, decoders);
        return Err(c.error), called;
      }
      if c.value.Some? {
        GroupDistinct(pairs);
        results := AddSuggestion(results, c.value.value.0, c.value.value.1);
        ghost var prev := pairs;
        pairs := pairs + [c.value.value];
        assert pairs[..|pairs| - 1] == prev;
      }
      i := i + 1;
    }
    r := Ok(results);
  }

  /** Once a call fails to decode, later calls change nothing. */
  lemma {:induction false} ErrorPersists(calls: seq<ToolCall>, m: nat, n: nat, tracks: seq<Track>,
                                         noOpEdit: Track -> RuleEdit, decoders: Decoders)
    requires m <= n <= |calls|
    requires Suggestions(calls, m, tracks, noOpEdit, decoders).Err?
    ensures Suggestions(calls, n, tracks, noOpEdit, decoders) == Suggestions(calls, m, tracks, noOpEdit, decoders)
    decreases n - m
  {
    if m < n {
      ErrorPersists(calls, m, n - 1, tracks, noOpEdit, decoders);
    }
  }

  /**
   * For any reply: an empty batch gives no results; a successful batch has
   * one entry per track index that received a suggestion, every index
   * within the batch, in order of first appearance, each with that track's
   * suggestions in call order.
   */
  lemma BatchFacts(tracks: seq<Track>, reply: Result<seq<ToolCall>, string>, noOpEdit: Track -> RuleEdit, decoders: Decoders)
    ensures tracks == [] ==> BatchSuggestions(tracks, reply, noOpEdit, decoders) == Ok([])
    ensures var r := BatchSuggestions(tracks, reply, noOpEdit, decoders);
      tracks != [] && reply.Ok? && r.Ok? ==>
        var pairs := Suggestions(reply.value, |reply.value|, tracks, noOpEdit, decoders).value;
        && Indices(r.value) == FirstAppearances(pairs)
        && (forall j :: 0 <= j < |r.value| ==> r.value[j].0 < |tracks| && r.value[j].1 == Filter(pairs, r.value[j].0))
  {
    var r := BatchSuggestions(tracks, reply, noOpEdit, decoders);
    if tracks != [] && reply.Ok? && r.Ok? {
      var calls := reply.value;
      var pairs := Suggestions(calls, |calls|, tracks, noOpEdit, decoders).value;
      GroupFacts(pairs);
      SuggestionsInBatch(calls, |calls|, tracks, noOpEdit, decoders);
      forall j | 0 <= j < |r.value|
        ensures r.value[j].0 < |tracks|
      {
        assert Indices(r.value)[j] == r.value[j].0;
        assert r.value[j].0 in FirstAppearances(pairs);
      }
    }
  }

  /** Every suggestion is for a track of the batch. */
  lemma {:induction false} SuggestionsInBatch(calls: seq<ToolCall>, n: nat, tracks: seq<Track>,
                                              noOpEdit: Track -> RuleEdit, decoders: Decoders)
    requires n <= |calls|
    ensures var s := Suggestions(calls, n, tracks, noOpEdit, decoders);
      s.Ok? ==> forall i :: 0 <= i < |s.value| ==> s.value[i].0 < |tracks|
  {
    if n > 0 {
      SuggestionsInBatch(calls, n - 1, tracks, noOpEdit, decoders);
      CallSuggestionFacts(calls[n - 1], tracks, noOpEdit, decoders);
    }
  }
}
