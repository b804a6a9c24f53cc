/**
 * What the scrubber uses of its rewrite-rule module, whose source is not
 * part of this model: the shape of a rule as the scrubber builds one, the
 * edit the rules are applied to, and the rule engine's operations, which
 * stay abstract total functions.
 */
module RewriteInterface {
  import opened Wrappers
  import opened LastFmTypes

  /**
   * One find-and-replace step: a regular expression or a literal string,
   * optional regex flags, and a replacement bound (0 means unlimited).
   */
  datatype SdRule = SdRule(find: string, replace: string, isLiteral: bool, flags: Option<string>, maxReplacements: nat)

  /** `SdRule::new_literal` / `SdRule::new_regex`: no flags and no bound. */
  function NewSdRule(find: string, replace: string, isLiteral: bool): SdRule {
    SdRule(find, replace, isLiteral, None, 0)
  }

  /** A rewrite rule: a step per field it rewrites, and whether applying it needs confirmation. */
  datatype RewriteRule = RewriteRule(
    trackName: Option<SdRule>,
    artistName: Option<SdRule>,
    albumName: Option<SdRule>,
    albumArtistName: Option<SdRule>,
    requiresConfirmation: bool)

  /** `RewriteRule::new`: rewrites nothing and needs no confirmation. */
  function NewRule(): RewriteRule {
    RewriteRule(None, None, None, None, false)
  }

  /** The edit the rules rewrite: original and new value of each of the four names. */
  datatype RuleEdit = RuleEdit(
    trackNameOriginal: string, trackName: string,
    artistNameOriginal: string, artistName: string,
    albumNameOriginal: string, albumName: string,
    albumArtistNameOriginal: string, albumArtistName: string)

  /** A rule engine failure, by its display text. */
  datatype RewriteError = RewriteError(text: string)

  /**
   * The rule engine: `create_no_op_edit`, `RewriteRule::applies_to`,
   * `any_rules_apply`, and `apply_all_rules` (whether anything changed, and
   * the rewritten edit).
   */
  datatype RuleEngine = RuleEngine(
    noOpEdit: Track -> RuleEdit,
    appliesTo: (RewriteRule, Track) -> Result<bool, RewriteError>,
    anyRulesApply: (seq<RewriteRule>, Track) -> Result<bool, RewriteError>,
    applyAllRules: (seq<RewriteRule>, RuleEdit) -> Result<(bool, RuleEdit), RewriteError>)
}
