/**
 The keyword validation rules (data/validation-rules.js): four rules, each
 with a severity, a kind, message templates and the documentation it rests
 on, plus the metadata of the three documentation kinds.
 */
module ValidationRules {
  import opened Text
  import opened Roles
  import opened Equivalencies

  /** The keys of VALIDATION_RULES. */
  datatype RuleId = SelfAppliedNeedsTesting | RedundantKeywords | AuthorityRestricted | NeedsPatchWithoutReproduction

  function RuleKey(id: RuleId): string {
    match id
    case SelfAppliedNeedsTesting => "self-applied-needs-testing"
    case RedundantKeywords => "redundant-keywords"
    case AuthorityRestricted => "authority-restricted-keywords"
    case NeedsPatchWithoutReproduction => "needs-patch-without-reproduction"
  }

  function Enabled(id: RuleId): bool {
    match id
    case SelfAppliedNeedsTesting => true
    case RedundantKeywords => true
    case AuthorityRestricted => false
    case NeedsPatchWithoutReproduction => false
  }

  function Severity(id: RuleId): string {
    match id
    case SelfAppliedNeedsTesting => "high"
    case RedundantKeywords => "low"
    case AuthorityRestricted => "medium"
    case NeedsPatchWithoutReproduction => "medium"
  }

  function RuleType(id: RuleId): string {
    match id
    case SelfAppliedNeedsTesting => "keyword-pattern"
    case RedundantKeywords => "keyword-redundancy"
    case AuthorityRestricted => "authority-mismatch"
    case NeedsPatchWithoutReproduction => "workflow-validation"
  }

  /** The message template; `{name}` marks a placeholder, written apart from the text
      around it. */
  function Message(id: RuleId): string {
    match id
    case SelfAppliedNeedsTesting => "Patch author added 'needs-testing' after uploading patch"
    case RedundantKeywords => "'" + "{keyword}" + "' is redundant with existing '" + "{equivalent}" + "'"
    case AuthorityRestricted =>
      "{role}" + " added '" + "{keyword}" + "' - typically added by " + "{minRole}" + " or higher"
    case NeedsPatchWithoutReproduction => "Ticket marked 'needs-patch' without confirmed reproduction"
  }

  function Recommendation(id: RuleId): string {
    match id
    case SelfAppliedNeedsTesting => "Remove 'needs-testing' and add 'needs-review' instead"
    case RedundantKeywords => "Remove '" + "{keyword}" + "' as it serves the same purpose as '" + "{equivalent}" + "'"
    case AuthorityRestricted => "{reason}" + " is typically done by core team members"
    case NeedsPatchWithoutReproduction => "Confirm bug reproduction before requesting patches"
  }

  /** Where a rule comes from; `date` and `url` are absent or null in some rules. */
  datatype RuleSource = RuleSource(kind: string, title: string, date: Option<string>, url: Option<string>,
                                   note: string, confidence: string)

  function Source(id: RuleId): RuleSource {
    match id
    case SelfAppliedNeedsTesting =>
      RuleSource("training", "WordPress Test Team Training: Ticket Triaging", Some("2026-02-03"), None,
        "Training showed 80% of self-applied 'needs-testing' are inadequate",
        "Based on team training data, not official policy")
    case RedundantKeywords =>
      RuleSource("training", "WordPress Test Team Training: Keyword Equivalencies", Some("2026-02-03"), None,
        "Keyword equivalencies documented in training session",
        "Based on team training, not official handbook")
    case AuthorityRestricted =>
      RuleSource("best-practice", "Observed team practices (not official policy)", None, None,
        "Based on observed patterns in ticket triage, not documented in WordPress.org handbook",
        "Observational - no official documentation")
    case NeedsPatchWithoutReproduction =>
      RuleSource("official", "WordPress Core Handbook: Bug Reports", None,
        Some("https://make.wordpress.org/core/handbook/testing/reporting-bugs/"),
        "Bugs should be reproducible before requesting patches",
        "Official WordPress.org documentation")
  }

  /** The keyword and condition of the self-applied rule. */
  const SelfAppliedKeyword: string := "needs-testing"
  const SelfAppliedCondition: string := "self-applied-by-patch-author"

  /** The `pairs` of the redundant-keywords rule. */
  const RedundantPairs: map<string, string> := map[
    "2nd-opinion" := "needs-review",
    "needs-test-info" := "reporter-feedback"
  ]

  /** The `keywords` of the authority rule; the reasons are shorter than those of
      AUTHORITY_RESTRICTED_KEYWORDS. */
  const AuthorityKeywords: map<string, Restriction> := map[
    "dev-feedback" := Restriction("Component Maintainer", "Requesting developer feedback"),
    "commit" := Restriction("Core Committer", "Marking ticket ready to commit")
  ]

  /** VALIDATION_RULE_SOURCES: how each kind of documentation is shown and trusted. */
  datatype SourceMeta = SourceMeta(displayName: string, icon: string, color: string, trustLevel: string)

  const ValidationRuleSources: map<string, SourceMeta> := map[
    "official" := SourceMeta("Official Documentation", "\U{1F4D8}", "#2271b1", "high"),
    "training" := SourceMeta("Team Training", "\U{1F393}", "#f0b849", "medium"),
    "best-practice" := SourceMeta("Best Practice", "\U{1F4A1}", "#999", "low")
  ]

  /** The redundant-keywords pairs are exactly KEYWORD_EQUIVALENCIES. */
  lemma PairsAreEquivalencies()
    ensures RedundantPairs == KeywordEquivalencies
  {
  }

  /** Only the self-applied and the redundant-keywords rules are enabled. */
  lemma EnabledRules()
    ensures forall id :: Enabled(id) <==> id == SelfAppliedNeedsTesting || id == RedundantKeywords
  {
  }

  /** Every rule's documentation kind is described in VALIDATION_RULE_SOURCES, and every
      severity is high, medium or low. */
  lemma RulesWellFormed()
    ensures forall id :: Source(id).kind in ValidationRuleSources
    ensures forall id :: Severity(id) == "high" || Severity(id) == "medium" || Severity(id) == "low"
  {
  }

  /** The authority rule restricts the same keywords, to the same roles, as
      AUTHORITY_RESTRICTED_KEYWORDS, and each role is ranked. */
  lemma AuthorityKeywordsRanked()
    ensures AuthorityKeywords.Keys == AuthorityRestrictedKeywords.Keys
    ensures forall k :: k in AuthorityKeywords ==>
      AuthorityKeywords[k].minRole == AuthorityRestrictedKeywords[k].minRole
    ensures forall k :: k in AuthorityKeywords ==> AuthorityKeywords[k].minRole in RoleHierarchy
  {
  }

  predicate NoBrace(s: string) { forall i :: 0 <= i < |s| ==> s[i] != '{' }

  /** The text around the placeholders of the templates holds no '{', so each placeholder
      is the first '{' after the text before it. */
  lemma TemplateTextsPlain()
    ensures NoBrace("'") && NoBrace("' is redundant with existing '")
    ensures NoBrace("Remove '") && NoBrace("' as it serves the same purpose as '")
    ensures NoBrace(" added '") && NoBrace("' - typically added by ")
  {
  }
}
