/**
 * Action providers: sources of suggestions for a scrobbled track. The
 * rules provider turns the rewrite rules into an immediate edit or, when a
 * rule that applies needs confirmation, into a rule proposal; the "or"
 * provider asks its providers in order and returns the first real
 * suggestion.
 *
 * A provider is its name and its `analyze_track`, with its errors already
 * converted to `ActionProviderError`.
 */
module ScrubActionProviders {
  import opened Wrappers
  import opened LastFmTypes
  import opened RewriteInterface

  /** The providers' common error: a message. */
  datatype ActionProviderError = ActionProviderError(message: string)

  const DisplayPrefix := "Action provider error: "

  /** `Display` for `ActionProviderError`: the message after a fixed prefix. */
  function Display(e: ActionProviderError): (r: string)
    ensures |r| == |DisplayPrefix| + |e.message|
    ensures r[..|DisplayPrefix|] == DisplayPrefix && r[|DisplayPrefix|..] == e.message
  {
    DisplayPrefix + e.message
  }

  /** Different errors display differently. */
  lemma DisplayInjective(a: ActionProviderError, b: ActionProviderError)
    ensures Display(a) == Display(b) ==> a == b
  {
    if Display(a) == Display(b) {
      assert a.message == Display(a)[|DisplayPrefix|..] == Display(b)[|DisplayPrefix|..] == b.message;
    }
  }

  /** `From<RewriteError>`. */
  function FromRewriteError(e: RewriteError): ActionProviderError {
    ActionProviderError("Rewrite error: " + e.text)
  }

  /** `From<String>` and `From<&str>`: the message as given. */
  function FromMessage(message: string): ActionProviderError {
    ActionProviderError(message)
  }

  /** What the conversions display: a message verbatim, a rule error after "Rewrite error: ". */
  lemma ConversionsDisplay(message: string, e: RewriteError)
    ensures FromMessage(message).message == message
    ensures Display(FromMessage(message)) == "Action provider error: " + message
    ensures Display(FromRewriteError(e)) == "Action provider error: Rewrite error: " + e.text
  {
  }

  /** A provider's answer for one track. */
  datatype ScrubActionSuggestion =
    | Edit(edit: RuleEdit)
    | ProposeRule(rule: RewriteRule, motivation: string)
    | NoAction

  datatype Provider = Provider(name: string, analyze: Track -> Result<ScrubActionSuggestion, ActionProviderError>)

  // ---------------------------------------------------------------------------
  // The rules provider
  // ---------------------------------------------------------------------------

  const RulesProviderName := "RewriteRules"
  const ConfirmationMotivation := "One or more rules require confirmation"

  /**
   * Whether some rule that applies to `track` needs confirmation; a rule
   * whose `applies_to` fails counts as not applying.
   */
  function AnyNeedsConfirmation(engine: RuleEngine, rules: seq<RewriteRule>, track: Track): bool
    decreases |rules|
  {
    if rules == [] then false
    else (engine.appliesTo(rules[0], track) == Ok(true) && rules[0].requiresConfirmation)
         || AnyNeedsConfirmation(engine, rules[1..], track)
  }

  predicate NeedsConfirmation(engine: RuleEngine, rule: RewriteRule, track: Track) {
    engine.appliesTo(rule, track) == Ok(true) && rule.requiresConfirmation
  }

  lemma {:induction false} AnyNeedsConfirmationIff(engine: RuleEngine, rules: seq<RewriteRule>, track: Track)
    ensures AnyNeedsConfirmation(engine, rules, track)
        <==> exists i :: 0 <= i < |rules| && NeedsConfirmation(engine, rules[i], track)
    decreases |rules|
  {
    if rules != [] {
      AnyNeedsConfirmationIff(engine, rules[1..], track);
      if exists i :: 0 <= i < |rules| && NeedsConfirmation(engine, rules[i], track) {
        var i :| 0 <= i < |rules| && NeedsConfirmation(engine, rules[i], track);
        if i > 0 {
          assert rules[1..][i - 1] == rules[i];
        }
      }
      if exists i :: 0 <= i < |rules| - 1 && NeedsConfirmation(engine, rules[1..][i], track) {
        var i :| 0 <= i < |rules| - 1 && NeedsConfirmation(engine, rules[1..][i], track);
        assert rules[i + 1] == rules[1..][i];
      }
    }
  }

  /** `RewriteRulesScrubActionProvider::analyze_track`. */
  function RulesAnalyzeTrack(engine: RuleEngine, rules: seq<RewriteRule>, track: Track)
    : Result<ScrubActionSuggestion, ActionProviderError>
  {
    match engine.anyRulesApply(rules, track)
    case Err(e) => Err(FromRewriteError(e))
    case Ok(applies) =>
      if !applies then Ok(NoAction)
      else
        match engine.applyAllRules(rules, engine.noOpEdit(track))
        case Err(e) => Err(FromRewriteError(e))
        case Ok(outcome) =>
          if !outcome.0 then Ok(NoAction)
          else if AnyNeedsConfirmation(engine, rules, track) then Ok(ProposeRule(NewRule(), ConfirmationMotivation))
          else Ok(Edit(outcome.1))
  }

  /** The rules provider as a provider. */
  function RulesProvider(engine: RuleEngine, rules: seq<RewriteRule>): Provider {
    Provider(RulesProviderName, track => RulesAnalyzeTrack(engine, rules, track))
  }

  /**
   * The rules provider fails exactly when checking or applying the rules
   * fails, with the rule error's text; it suggests nothing when no rule
   * applies or applying them changes nothing; when they change something it
   * proposes a rule exactly when some rule that applies needs confirmation,
   * and otherwise suggests the rewritten edit.
   */
  lemma RulesProviderDecision(engine: RuleEngine, rules: seq<RewriteRule>, track: Track)
    ensures var r := RulesAnalyzeTrack(engine, rules, track);
      var check := engine.anyRulesApply(rules, track);
      var applied := engine.applyAllRules(rules, engine.noOpEdit(track));
      && (r.Err? <==> check.Err? || (check == Ok(true) && applied.Err?))
      && (check.Err? ==> r == Err(ActionProviderError("Rewrite error: " + check.error.text)))
      && (r == Ok(NoAction) <==> check == Ok(false) || (check == Ok(true) && applied.Ok? && !applied.value.0))
      && (r.Ok? && r.value.ProposeRule? <==>
            check == Ok(true) && applied.Ok? && applied.value.0
            && exists i :: 0 <= i < |rules| && NeedsConfirmation(engine, rules[i], track))
      && (r.Ok? && r.value.ProposeRule? ==> r.value.motivation == ConfirmationMotivation)
      && (r.Ok? && r.value.Edit? <==>
            check == Ok(true) && applied.Ok? && applied.value.0
            && forall i :: 0 <= i < |rules| ==> !NeedsConfirmation(engine, rules[i], track))
      && (r.Ok? && r.value.Edit? ==> r.value.edit == applied.value.1)
  {
    AnyNeedsConfirmationIff(engine, rules, track);
  }

  // ---------------------------------------------------------------------------
  // The "or" provider
  // ---------------------------------------------------------------------------

  const OrProviderName := "OrProvider"

  /** An answer that ends the search: a suggestion other than `NoAction`. */
  predicate IsSuggestion(answer: Result<ScrubActionSuggestion, ActionProviderError>) {
    answer.Ok? && !answer.value.NoAction?
  }

  /** The position of the first answer that is a suggestion, if any. */
  function FirstSuggestion(answers: seq<Result<ScrubActionSuggestion, ActionProviderError>>): (r: Option<nat>)
    ensures r.Some? ==> r.value < |answers| && IsSuggestion(answers[r.value])
                        && forall j :: 0 <= j < r.value ==> !IsSuggestion(answers[j])
    ensures r.None? ==> forall j :: 0 <= j < |answers| ==> !IsSuggestion(answers[j])
    decreases |answers|
  {
    if answers == [] then None
    else if IsSuggestion(answers[0]) then Some(0)
    else
      var rest := FirstSuggestion(answers[1..]);
      assert forall j :: 1 <= j < |answers| ==> answers[j] == answers[1..][j - 1];
      if rest.Some? then Some(rest.value + 1) else None
  }

  /** What each provider answers for `track`, in order. */
  function Answers(providers: seq<Provider>, track: Track): (r: seq<Result<ScrubActionSuggestion, ActionProviderError>>)
    ensures |r| == |providers|
  {
    seq(|providers|, i requires 0 <= i < |providers| => providers[i].analyze(track))
  }

  /** The "or" provider's suggestion: the first real one, else `NoAction`. */
  function OrSuggestion(providers: seq<Provider>, track: Track): ScrubActionSuggestion {
    var answers := Answers(providers, track);
    match FirstSuggestion(answers)
    case Some(i) => answers[i].value
    case None => NoAction
  }

  class OrScrubActionProvider {
    var providers: seq<Provider>
    var providerNames: seq<string>

    /** Each provider has its name at the same position. */
    predicate Valid()
      reads this
    {
      |providers| == |providerNames|
      && forall i :: 0 <= i < |providers| ==> providerNames[i] == providers[i].name
    }

    /** `OrScrubActionProvider::new`. */
    constructor ()
      ensures providers == [] && providerNames == []
      ensures Valid()
    {
      providers := [];
      providerNames := [];
    }

    /** `add_provider`: the provider and its name are appended together. */
    method AddProvider(provider: Provider)
      modifies this
      ensures providers == old(providers) + [provider]
      ensures providerNames == old(providerNames) + [provider.name]
      ensures old(Valid()) ==> Valid()
    {
      providerNames := providerNames + [provider.name];
      providers := providers + [provider];
    }

    /** `with_providers`: a provider holding `providers`, in order. */
    static method WithProviders(providers: seq<Provider>) returns (or: OrScrubActionProvider)
      ensures fresh(or)
      ensures or.providers == providers && or.Valid()
    {
      or := new OrScrubActionProvider();
      var i := 0;
      while i < |providers|
        invariant 0 <= i <= |providers|
        invariant or.providers == providers[..i]
        invariant or.Valid()
      {
        or.AddProvider(providers[i]);
        i := i + 1;
        assert providers[..i] == providers[..i - 1] + [providers[i - 1]];
      }
      assert providers[..i] == providers;
    }

    /**
     * `analyze_track`: the providers are asked in order; `NoAction` and
     * errors pass on to the next, and the first real suggestion is returned
     * without asking the rest. `consulted` is how many were asked. The
     * result is never an error.
     */
    method AnalyzeTrack(track: Track) returns (r: Result<ScrubActionSuggestion, ActionProviderError>, consulted: nat)
      ensures r == Ok(OrSuggestion(providers, track))
      ensures var first := FirstSuggestion(Answers(providers, track));
        consulted == if first.Some? then first.value + 1 else |providers|
    {
      ghost var answers := Answers(providers, track);
      var i := 0;
      while i < |providers|
        invariant 0 <= i <= |providers|
        invariant forall j :: 0 <= j < i ==> !IsSuggestion(answers[j])
      {
        var answer := providers[i].analyze(track);
        match answer {
          case Ok(suggestion) =>
            if !suggestion.NoAction? {
              assert IsSuggestion(answers[i]);
              return Ok(suggestion), i + 1;
            }
          case Err(_) =>
        }
        i := i + 1;
      }
      return Ok(NoAction), |providers|;
    }
  }

  /**
   * The "or" provider returns a real suggestion exactly when some provider
   * gives one, and then it is the first such in provider order, every
   * earlier provider having given `NoAction` or an error. Providers after
   * it do not matter.
   */
  lemma OrSuggestionFacts(providers: seq<Provider>, track: Track, later: seq<Provider>)
    ensures var s := OrSuggestion(providers, track);
      && (s.NoAction? <==> forall i :: 0 <= i < |providers| ==> !IsSuggestion(providers[i].analyze(track)))
      && (!s.NoAction? ==>
            exists i :: 0 <= i < |providers| && providers[i].analyze(track) == Ok(s)
                        && (forall j :: 0 <= j < i ==> !IsSuggestion(providers[j].analyze(track)))
                        && OrSuggestion(providers[..i + 1] + later, track) == s)
  {
    var answers := Answers(providers, track);
    var first := FirstSuggestion(answers);
    assert forall j :: 0 <= j < |providers| ==> answers[j] == providers[j].analyze(track);
    if first.Some? {
      var i := first.value;
      assert providers[i].analyze(track) == Ok(OrSuggestion(providers, track));
      var extended := providers[..i + 1] + later;
      var other := Answers(extended, track);
      assert forall j :: 0 <= j <= i ==> other[j] == answers[j];
      var f := FirstSuggestion(other);
      assert f == Some(i);
    }
  }
}
