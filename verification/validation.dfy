/**
 analyzeKeywordValidation of content/trac-sidebar.js: the three rules that
 look at a ticket's keywords and who added them.

 1. Self-applied needs-testing: the keyword was last added by someone who
    attached a patch.
 2. Redundant keywords: a current keyword and its listed equivalent are both
    present, compared case-insensitively.
 3. Authority: a restricted keyword was last added by someone ranked below
    the role the rule expects.

 A rule that is missing from the rule table, or disabled, reports nothing.
 Issues come in rule order, then in the order of the keywords each rule
 walks.
 */
module Validation {
  import opened Text
  import opened Objects
  import opened Roles
  import opened Equivalencies
  import opened ValidationRules
  import opened ChangeLog
  import opened KeywordHistory
  import opened RecentComments

  /** The part of a VALIDATION_RULES entry the analysis reads. */
  datatype RuleConfig = RuleConfig(
    enabled: bool,
    kind: string,
    severity: string,
    message: string,
    recommendation: string,
    source: RuleSource)

  /** VALIDATION_RULES as the analysis reads it; an absent rule is none. */
  datatype Rules = Rules(
    selfApplied: Option<RuleConfig>,
    selfKeyword: string,
    redundant: Option<RuleConfig>,
    pairs: map<string, string>,
    authority: Option<RuleConfig>,
    restricted: map<string, Restriction>)

  function ConfigOf(id: RuleId): RuleConfig {
    RuleConfig(Enabled(id), RuleType(id), Severity(id), Message(id), Recommendation(id), Source(id))
  }

  /** The rules as data/validation-rules.js defines them. */
  const Shipped: Rules := Rules(
    Some(ConfigOf(SelfAppliedNeedsTesting)), SelfAppliedKeyword,
    Some(ConfigOf(RedundantKeywords)), RedundantPairs,
    Some(ConfigOf(AuthorityRestricted)), AuthorityKeywords)

  /** One reported problem. `author` and `authorRole` belong to rules 1 and 3,
      `equivalent` to rule 2. */
  datatype Issue = Issue(
    ruleId: RuleId,
    kind: string,
    severity: string,
    keyword: string,
    author: Option<string>,
    authorRole: Option<string>,
    equivalent: Option<string>,
    message: string,
    recommendation: string,
    source: RuleSource)

  /** The rule is present and enabled. */
  predicate On(rule: Option<RuleConfig>) {
    rule.Some? && rule.value.enabled
  }

  /** The results of `f` that are present, in the order of `s`. */
  function FilterMap<T, U(==, !new)>(s: seq<T>, f: T -> Option<U>): (r: seq<U>)
    ensures |r| <= |s|
    ensures forall y :: y in r <==> exists i :: 0 <= i < |s| && f(s[i]) == Some(y)
  {
    if |s| == 0 then []
    else
      var rest := FilterMap(s[1..], f);
      assert forall i :: 0 <= i < |s| - 1 ==> s[1..][i] == s[i + 1];
      match f(s[0]) case Some(y) => [y] + rest case None => rest
  }

  /** The keywords now on the ticket: the words of the trimmed keywords cell, none
      without the cell. */
  function CurrentKeywords(cell: Option<string>): (r: seq<string>)
    ensures forall k :: 0 <= k < |r| ==> |r[k]| > 0 && NoSpace(r[k])
    ensures cell.None? ==> r == []
  {
    if cell.None? then [] else Words(Trim(cell.value))
  }

  /** `labels[author] || 'Individual Contributor'`. */
  function RoleOfAuthor(labels: map<string, string>, author: string): string {
    LabelOr(labels, author, "Individual Contributor")
  }

  // ---------------------------------------------------------------------
  // Rule 1: self-applied needs-testing
  // ---------------------------------------------------------------------

  /** The issue an entry of the keyword history raises under rule 1. */
  function SelfAppliedIssue(rule: RuleConfig, keyword: string, labels: map<string, string>,
                            attachments: seq<Attachment>, entry: (string, Event)): (r: Option<Issue>)
    ensures r.Some? <==> entry.0 == keyword && |PatchesBy(attachments, entry.1.author)| > 0
    ensures r.Some? ==> r.value.ruleId == SelfAppliedNeedsTesting && r.value.keyword == keyword
    ensures r.Some? ==> r.value.author == Some(entry.1.author)
                        && r.value.authorRole == Some(RoleOfAuthor(labels, entry.1.author))
    ensures r.Some? ==> r.value.message == rule.message && r.value.severity == rule.severity
  {
    var author := entry.1.author;
    if entry.0 == keyword && |PatchesBy(attachments, author)| > 0 then
      Some(Issue(SelfAppliedNeedsTesting, rule.kind, rule.severity, entry.0, Some(author),
                 Some(RoleOfAuthor(labels, author)), None, rule.message, rule.recommendation, rule.source))
    else None
  }

  // ---------------------------------------------------------------------
  // Rule 2: redundant keywords
  // ---------------------------------------------------------------------

  /** `ks.some(k => k.toLowerCase() === target.toLowerCase())`. */
  function SomeLower(ks: seq<string>, target: string): (r: bool)
    ensures r <==> exists j :: 0 <= j < |ks| && ToLower(ks[j]) == ToLower(target)
  {
    if |ks| == 0 then false
    else
      assert forall j :: 0 <= j < |ks| - 1 ==> ks[1..][j] == ks[j + 1];
      ToLower(ks[0]) == ToLower(target) || SomeLower(ks[1..], target)
  }

  /** Keyword `k` is redundant: its lower-cased form has a non-empty equivalent, and the
      equivalent is among the current keywords in any case. */
  predicate Redundant(pairs: map<string, string>, current: seq<string>, k: string) {
    ToLower(k) in pairs && pairs[ToLower(k)] != "" && SomeLower(current, pairs[ToLower(k)])
  }

  /** The template with its first "{keyword}" and then its first "{equivalent}" filled. */
  function FillPair(template: string, keyword: string, equivalent: string): string {
    ReplaceFirst(ReplaceFirst(template, "{keyword}", keyword), "{equivalent}", equivalent)
  }

  function RedundantIssue(rule: RuleConfig, pairs: map<string, string>, current: seq<string>, k: string)
    : (r: Option<Issue>)
    ensures r.Some? <==> Redundant(pairs, current, k)
    ensures r.Some? ==> r.value.ruleId == RedundantKeywords && r.value.keyword == k
                        && r.value.equivalent == Some(pairs[ToLower(k)]) && r.value.author.None?
    ensures r.Some? ==> r.value.message == FillPair(rule.message, k, pairs[ToLower(k)])
                        && r.value.recommendation == FillPair(rule.recommendation, k, pairs[ToLower(k)])
  {
    if Redundant(pairs, current, k) then
      var equivalent := pairs[ToLower(k)];
      Some(Issue(RedundantKeywords, rule.kind, rule.severity, k, None, None, Some(equivalent),
                 FillPair(rule.message, k, equivalent), FillPair(rule.recommendation, k, equivalent),
                 rule.source))
    else None
  }

  // ---------------------------------------------------------------------
  // Rule 3: authority-restricted keywords
  // ---------------------------------------------------------------------

  /** The author of the entry ranks below the least role the keyword expects: a larger
      rank number, with 5 for an unranked author and 4 for an unranked required role. */
  predicate Outranked(restricted: map<string, Restriction>, labels: map<string, string>, entry: (string, Event)) {
    entry.0 in restricted
    && RankOr(RoleOfAuthor(labels, entry.1.author), 5) > RankOr(restricted[entry.0].minRole, 4)
  }

  /** The message template with "{role}", "{keyword}" and "{minRole}" filled, in that
      order, first occurrence each. */
  function FillAuthority(template: string, role: string, keyword: string, minRole: string): string {
    ReplaceFirst(ReplaceFirst(ReplaceFirst(template, "{role}", role), "{keyword}", keyword), "{minRole}", minRole)
  }

  function AuthorityIssue(rule: RuleConfig, restricted: map<string, Restriction>, labels: map<string, string>,
                          entry: (string, Event)): (r: Option<Issue>)
    ensures r.Some? <==> Outranked(restricted, labels, entry)
    ensures r.Some? ==> r.value.ruleId == AuthorityRestricted && r.value.keyword == entry.0
                        && r.value.author == Some(entry.1.author)
                        && r.value.authorRole == Some(RoleOfAuthor(labels, entry.1.author))
    ensures r.Some? ==>
      r.value.message == FillAuthority(rule.message, RoleOfAuthor(labels, entry.1.author), entry.0,
                                       restricted[entry.0].minRole)
      && r.value.recommendation == ReplaceFirst(rule.recommendation, "{reason}", restricted[entry.0].reason)
  {
    if Outranked(restricted, labels, entry) then
      var author := entry.1.author;
      var role := RoleOfAuthor(labels, author);
      var restriction := restricted[entry.0];
      Some(Issue(AuthorityRestricted, rule.kind, rule.severity, entry.0, Some(author), Some(role), None,
                 FillAuthority(rule.message, role, entry.0, restriction.minRole),
                 ReplaceFirst(rule.recommendation, "{reason}", restriction.reason), rule.source))
    else None
  }

  // ---------------------------------------------------------------------
  // The analysis
  // ---------------------------------------------------------------------

  function SelfAppliedIssues(rules: Rules, history: Object<Event>, labels: map<string, string>,
                             attachments: seq<Attachment>): (r: seq<Issue>)
    ensures !On(rules.selfApplied) ==> r == []
    ensures forall iss :: iss in r ==> iss.ruleId == SelfAppliedNeedsTesting
    ensures On(rules.selfApplied) ==>
      forall iss :: iss in r <==>
        exists i :: 0 <= i < |history| && SelfAppliedIssue(rules.selfApplied.value, rules.selfKeyword, labels, attachments, history[i]) == Some(iss)
  {
    if On(rules.selfApplied) then
      FilterMap(history, e => SelfAppliedIssue(rules.selfApplied.value, rules.selfKeyword, labels, attachments, e))
    else []
  }

  function RedundantIssues(rules: Rules, current: seq<string>): (r: seq<Issue>)
    ensures !On(rules.redundant) ==> r == []
    ensures forall iss :: iss in r ==> iss.ruleId == RedundantKeywords
    ensures On(rules.redundant) ==>
      forall iss :: iss in r <==>
        exists i :: 0 <= i < |current| && RedundantIssue(rules.redundant.value, rules.pairs, current, current[i]) == Some(iss)
  {
    if On(rules.redundant) then
      FilterMap(current, k => RedundantIssue(rules.redundant.value, rules.pairs, current, k))
    else []
  }

  function AuthorityIssues(rules: Rules, rolesLoaded: bool, history: Object<Event>, labels: map<string, string>)
    : (r: seq<Issue>)
    ensures !On(rules.authority) || !rolesLoaded ==> r == []
    ensures forall iss :: iss in r ==> iss.ruleId == AuthorityRestricted
    ensures On(rules.authority) && rolesLoaded ==>
      forall iss :: iss in r <==>
        exists i :: 0 <= i < |history| && AuthorityIssue(rules.authority.value, rules.restricted, labels, history[i]) == Some(iss)
  {
    if On(rules.authority) && rolesLoaded then
      FilterMap(history, e => AuthorityIssue(rules.authority.value, rules.restricted, labels, e))
    else []
  }

  /** The table entry of a rule; the reproduction rule has no code behind it, so the
      analysis never consults it. */
  function RuleOf(rules: Rules, id: RuleId): Option<RuleConfig> {
    match id
    case SelfAppliedNeedsTesting => rules.selfApplied
    case RedundantKeywords => rules.redundant
    case AuthorityRestricted => rules.authority
    case NeedsPatchWithoutReproduction => None
  }

  /** analyzeKeywordValidation. `rules` is none when VALIDATION_RULES is not defined,
      `rolesLoaded` says whether ROLE_HIERARCHY is, `history` is the keyword history,
      `cell` the keywords cell of the ticket, `labels` the contributor labels and
      `attachments` the ticket's attachment list. Every issue comes from a rule that is
      present and enabled, and the authority rule also needs the role table. */
  function Analyze(rules: Option<Rules>, rolesLoaded: bool, history: Object<Event>, cell: Option<string>,
                   labels: map<string, string>, attachments: seq<Attachment>): (r: seq<Issue>)
    ensures rules.None? ==> r == []
    ensures rules.Some? ==> forall iss :: iss in r ==> On(RuleOf(rules.value, iss.ruleId))
    ensures forall iss :: iss in r && iss.ruleId == AuthorityRestricted ==> rolesLoaded
  {
    match rules
    case None => []
    case Some(rs) =>
      SelfAppliedIssues(rs, history, labels, attachments)
      + RedundantIssues(rs, CurrentKeywords(cell))
      + AuthorityIssues(rs, rolesLoaded, history, labels)
  }

  /** The history records `kw` with an author who has attached a patch. */
  predicate PatchAuthorAdded(history: Object<Event>, kw: string, attachments: seq<Attachment>) {
    Get(history, kw).Some? && |PatchesBy(attachments, Get(history, kw).value.author)| > 0
  }

  lemma SelfAppliedIssuesFound(rules: Rules, history: Object<Event>, labels: map<string, string>,
                               attachments: seq<Attachment>)
    requires UniqueKeys(history)
    ensures SelfAppliedIssues(rules, history, labels, attachments) != []
            <==> On(rules.selfApplied) && PatchAuthorAdded(history, rules.selfKeyword, attachments)
  {
    if On(rules.selfApplied) && PatchAuthorAdded(history, rules.selfKeyword, attachments) {
      SelfAppliedIfAdded(rules, history, labels, attachments);
    }
    if SelfAppliedIssues(rules, history, labels, attachments) != [] {
      SelfAppliedOnlyIfAdded(rules, history, labels, attachments);
    }
  }

  lemma SelfAppliedIfAdded(rules: Rules, history: Object<Event>, labels: map<string, string>,
                           attachments: seq<Attachment>)
    requires On(rules.selfApplied) && PatchAuthorAdded(history, rules.selfKeyword, attachments)
    ensures SelfAppliedIssues(rules, history, labels, attachments) != []
  {
    var kw := rules.selfKeyword;
    var f := e => SelfAppliedIssue(rules.selfApplied.value, kw, labels, attachments, e);
    var i :| 0 <= i < |history| && history[i] == (kw, Get(history, kw).value);
    assert f(history[i]).Some?;
    assert f(history[i]).value in SelfAppliedIssues(rules, history, labels, attachments);
  }

  lemma SelfAppliedOnlyIfAdded(rules: Rules, history: Object<Event>, labels: map<string, string>,
                               attachments: seq<Attachment>)
    requires UniqueKeys(history) && SelfAppliedIssues(rules, history, labels, attachments) != []
    ensures On(rules.selfApplied) && PatchAuthorAdded(history, rules.selfKeyword, attachments)
  {
    var a := SelfAppliedIssues(rules, history, labels, attachments);
    var f := e => SelfAppliedIssue(rules.selfApplied.value, rules.selfKeyword, labels, attachments, e);
    var i :| 0 <= i < |history| && f(history[i]) == Some(a[0]);
    assert history[i].0 == rules.selfKeyword;
    UniqueGet(history, i);
  }

  /** An issue of the analysis comes from one of the three rules. */
  lemma InAnalyze(rules: Rules, rolesLoaded: bool, history: Object<Event>, cell: Option<string>,
                  labels: map<string, string>, attachments: seq<Attachment>, iss: Issue)
    ensures iss in Analyze(Some(rules), rolesLoaded, history, cell, labels, attachments)
            <==> iss in SelfAppliedIssues(rules, history, labels, attachments)
                 || iss in RedundantIssues(rules, CurrentKeywords(cell))
                 || iss in AuthorityIssues(rules, rolesLoaded, history, labels)
  {
  }

  /** Rule 1 reports exactly when it is on, the history records the rule's keyword, and
      the author recorded for it has attached a patch. */
  lemma SelfAppliedReported(rules: Rules, rolesLoaded: bool, history: Object<Event>, cell: Option<string>,
                            labels: map<string, string>, attachments: seq<Attachment>)
    requires UniqueKeys(history)
    ensures (exists iss :: iss in Analyze(Some(rules), rolesLoaded, history, cell, labels, attachments)
                           && iss.ruleId == SelfAppliedNeedsTesting)
            <==> On(rules.selfApplied) && PatchAuthorAdded(history, rules.selfKeyword, attachments)
  {
    var a := SelfAppliedIssues(rules, history, labels, attachments);
    SelfAppliedIssuesFound(rules, history, labels, attachments);
    if a != [] {
      InAnalyze(rules, rolesLoaded, history, cell, labels, attachments, a[0]);
    }
    if iss :| iss in Analyze(Some(rules), rolesLoaded, history, cell, labels, attachments)
              && iss.ruleId == SelfAppliedNeedsTesting {
      InAnalyze(rules, rolesLoaded, history, cell, labels, attachments, iss);
    }
  }

  /** Rule 2 flags a current keyword exactly when its equivalent is also present. */
  lemma {:induction false} RedundantIssuesFound(rules: Rules, current: seq<string>, k: string)
    ensures (exists iss :: iss in RedundantIssues(rules, current) && iss.keyword == k)
            <==> On(rules.redundant) && k in current && Redundant(rules.pairs, current, k)
  {
    if On(rules.redundant) {
      var f := x => RedundantIssue(rules.redundant.value, rules.pairs, current, x);
      if k in current && Redundant(rules.pairs, current, k) {
        var i :| 0 <= i < |current| && current[i] == k;
        assert f(current[i]).value in RedundantIssues(rules, current);
      }
      if iss :| iss in RedundantIssues(rules, current) && iss.keyword == k {
        var i :| 0 <= i < |current| && f(current[i]) == Some(iss);
        assert current[i] == k;
      }
    }
  }

  lemma RedundantReported(rules: Rules, rolesLoaded: bool, history: Object<Event>, cell: Option<string>,
                          labels: map<string, string>, attachments: seq<Attachment>, k: string)
    ensures (exists iss :: iss in Analyze(Some(rules), rolesLoaded, history, cell, labels, attachments)
                           && iss.ruleId == RedundantKeywords && iss.keyword == k)
            <==> On(rules.redundant) && k in CurrentKeywords(cell) && Redundant(rules.pairs, CurrentKeywords(cell), k)
  {
    RedundantIssuesFound(rules, CurrentKeywords(cell), k);
    if iss :| iss in RedundantIssues(rules, CurrentKeywords(cell)) && iss.keyword == k {
      InAnalyze(rules, rolesLoaded, history, cell, labels, attachments, iss);
    }
    if iss :| iss in Analyze(Some(rules), rolesLoaded, history, cell, labels, attachments)
              && iss.ruleId == RedundantKeywords && iss.keyword == k {
      InAnalyze(rules, rolesLoaded, history, cell, labels, attachments, iss);
    }
  }

  /** Rule 3 flags a keyword of the history exactly when the author recorded for it is
      outranked by the keyword's required role. */
  lemma AuthorityIssuesFound(rules: Rules, rolesLoaded: bool, history: Object<Event>,
                             labels: map<string, string>, k: string)
    requires UniqueKeys(history)
    ensures (exists iss :: iss in AuthorityIssues(rules, rolesLoaded, history, labels) && iss.keyword == k)
            <==> On(rules.authority) && rolesLoaded && Get(history, k).Some?
                 && Outranked(rules.restricted, labels, (k, Get(history, k).value))
  {
    if On(rules.authority) && rolesLoaded && Get(history, k).Some?
       && Outranked(rules.restricted, labels, (k, Get(history, k).value)) {
      AuthorityIfOutranked(rules, rolesLoaded, history, labels, k);
    }
    if iss :| iss in AuthorityIssues(rules, rolesLoaded, history, labels) && iss.keyword == k {
      AuthorityOnlyIfOutranked(rules, rolesLoaded, history, labels, iss);
    }
  }

  lemma AuthorityIfOutranked(rules: Rules, rolesLoaded: bool, history: Object<Event>,
                             labels: map<string, string>, k: string)
    requires On(rules.authority) && rolesLoaded && Get(history, k).Some?
    requires Outranked(rules.restricted, labels, (k, Get(history, k).value))
    ensures exists iss :: iss in AuthorityIssues(rules, rolesLoaded, history, labels) && iss.keyword == k
  {
    var f := e => AuthorityIssue(rules.authority.value, rules.restricted, labels, e);
    var i :| 0 <= i < |history| && history[i] == (k, Get(history, k).value);
    assert f(history[i]).value in AuthorityIssues(rules, rolesLoaded, history, labels);
  }

  lemma AuthorityOnlyIfOutranked(rules: Rules, rolesLoaded: bool, history: Object<Event>,
                                 labels: map<string, string>, iss: Issue)
    requires UniqueKeys(history) && iss in AuthorityIssues(rules, rolesLoaded, history, labels)
    ensures On(rules.authority) && rolesLoaded && Get(history, iss.keyword).Some?
            && Outranked(rules.restricted, labels, (iss.keyword, Get(history, iss.keyword).value))
  {
    var f := e => AuthorityIssue(rules.authority.value, rules.restricted, labels, e);
    var i :| 0 <= i < |history| && f(history[i]) == Some(iss);
    assert history[i].0 == iss.keyword;
    UniqueGet(history, i);
  }

  lemma AuthorityReported(rules: Rules, rolesLoaded: bool, history: Object<Event>, cell: Option<string>,
                          labels: map<string, string>, attachments: seq<Attachment>, k: string)
    requires UniqueKeys(history)
    ensures (exists iss :: iss in Analyze(Some(rules), rolesLoaded, history, cell, labels, attachments)
                           && iss.ruleId == AuthorityRestricted && iss.keyword == k)
            <==> On(rules.authority) && rolesLoaded && Get(history, k).Some?
                 && Outranked(rules.restricted, labels, (k, Get(history, k).value))
  {
    AuthorityIssuesFound(rules, rolesLoaded, history, labels, k);
    if iss :| iss in AuthorityIssues(rules, rolesLoaded, history, labels) && iss.keyword == k {
      InAnalyze(rules, rolesLoaded, history, cell, labels, attachments, iss);
    }
    if iss :| iss in Analyze(Some(rules), rolesLoaded, history, cell, labels, attachments)
              && iss.ruleId == AuthorityRestricted && iss.keyword == k {
      InAnalyze(rules, rolesLoaded, history, cell, labels, attachments, iss);
    }
  }

  /** With the rules as shipped, only rules 1 and 2 ever report. */
  lemma ShippedReportsRulesOneAndTwo(rolesLoaded: bool, history: Object<Event>, cell: Option<string>,
                                     labels: map<string, string>, attachments: seq<Attachment>)
    ensures forall iss :: iss in Analyze(Some(Shipped), rolesLoaded, history, cell, labels, attachments) ==>
      iss.ruleId == SelfAppliedNeedsTesting || iss.ruleId == RedundantKeywords
  {
    ShippedAuthorityOff();
    OnlyEnabledReport(Shipped, rolesLoaded, history, cell, labels, attachments);
  }

  lemma ShippedAuthorityOff()
    ensures !On(Shipped.authority)
  {
    assert !Enabled(AuthorityRestricted);
    assert !ConfigOf(AuthorityRestricted).enabled;
  }

  /** A rule that is off reports nothing. */
  lemma OnlyEnabledReport(rules: Rules, rolesLoaded: bool, history: Object<Event>, cell: Option<string>,
                          labels: map<string, string>, attachments: seq<Attachment>)
    requires !On(rules.authority)
    ensures forall iss :: iss in Analyze(Some(rules), rolesLoaded, history, cell, labels, attachments) ==>
      iss.ruleId == SelfAppliedNeedsTesting || iss.ruleId == RedundantKeywords
  {
  }

  // ---------------------------------------------------------------------
  // Messages
  // ---------------------------------------------------------------------

  /** Filling a placeholder that follows brace-free text replaces that placeholder. */
  lemma Fill(head: string, placeholder: string, tail: string, value: string)
    requires NoBrace(head) && |placeholder| > 0 && placeholder[0] == '{'
    ensures ReplaceFirst(head + placeholder + tail, placeholder, value) == head + value + tail
  {
    var s := head + placeholder + tail;
    assert s == head + (placeholder + tail);
    IndexOfPastPrefix(head, placeholder + tail, placeholder);
    assert s[..|head|] == head;
    assert s[|head| + |placeholder|..] == tail;
  }

  lemma NoBraceConcat(a: string, b: string)
    requires NoBrace(a) && NoBrace(b)
    ensures NoBrace(a + b)
  {
    assert forall i :: 0 <= i < |a + b| ==> (a + b)[i] == if i < |a| then a[i] else b[i - |a|];
  }

  /** Two placeholders, each after brace-free text, filled in order. */
  lemma FillTwo(h: string, p1: string, m: string, p2: string, t: string, v1: string, v2: string)
    requires NoBrace(h) && NoBrace(m) && NoBrace(v1)
    requires |p1| > 0 && p1[0] == '{' && |p2| > 0 && p2[0] == '{'
    ensures ReplaceFirst(ReplaceFirst(h + p1 + (m + p2 + t), p1, v1), p2, v2) == h + v1 + m + v2 + t
  {
    Fill(h, p1, m + p2 + t, v1);
    NoBraceConcat(h, v1);
    NoBraceConcat(h + v1, m);
    assert h + v1 + (m + p2 + t) == (h + v1 + m) + p2 + t;
    Fill(h + v1 + m, p2, t, v2);
  }

  /** With a brace-free keyword, the shipped rule 2 reads "'k' is redundant with existing
      'e'". */
  lemma RedundantMessage(k: string, equivalent: string)
    requires NoBrace(k)
    ensures FillPair(Message(RedundantKeywords), k, equivalent)
            == "'" + k + "' is redundant with existing '" + equivalent + "'"
  {
    var h, m, t := "'", "' is redundant with existing '", "'";
    assert NoBrace(h) && NoBrace(m) by { TemplateTextsPlain(); }
    assert Message(RedundantKeywords) == h + "{keyword}" + (m + "{equivalent}" + t);
    FillTwo(h, "{keyword}", m, "{equivalent}", t, k, equivalent);
  }

  /** ... and recommends "Remove 'k' as it serves the same purpose as 'e'". */
  lemma RedundantRecommendation(k: string, equivalent: string)
    requires NoBrace(k)
    ensures FillPair(Recommendation(RedundantKeywords), k, equivalent)
            == "Remove '" + k + "' as it serves the same purpose as '" + equivalent + "'"
  {
    var h, m, t := "Remove '", "' as it serves the same purpose as '", "'";
    assert NoBrace(h) && NoBrace(m) by { TemplateTextsPlain(); }
    assert Recommendation(RedundantKeywords) == h + "{keyword}" + (m + "{equivalent}" + t);
    FillTwo(h, "{keyword}", m, "{equivalent}", t, k, equivalent);
  }

  /** Every keyword rule 2 can flag is brace-free, so its texts read as above. */
  lemma RedundantKeywordPlain(k: string)
    requires ToLower(k) in RedundantPairs
    ensures NoBrace(k)
  {
    forall i | 0 <= i < |k| ensures k[i] != '{' {
      assert ToLower(k)[i] == LowerChar(k[i]);
    }
  }

  /** Three placeholders, each after brace-free text, filled in order. */
  lemma FillThree(h: string, p1: string, m1: string, p2: string, m2: string, p3: string, t: string,
                  v1: string, v2: string, v3: string)
    requires NoBrace(h) && NoBrace(m1) && NoBrace(m2) && NoBrace(v1) && NoBrace(v2)
    requires |p1| > 0 && p1[0] == '{' && |p2| > 0 && p2[0] == '{' && |p3| > 0 && p3[0] == '{'
    ensures ReplaceFirst(ReplaceFirst(ReplaceFirst(h + p1 + (m1 + p2 + m2 + p3 + t), p1, v1), p2, v2), p3, v3)
            == h + v1 + m1 + v2 + m2 + v3 + t
  {
    Fill(h, p1, m1 + p2 + m2 + p3 + t, v1);
    NoBraceConcat(h, v1);
    assert h + v1 + (m1 + p2 + m2 + p3 + t) == (h + v1) + m1 + p2 + (m2 + p3 + t);
    NoBraceConcat(h + v1, m1);
    assert (h + v1) + m1 + p2 + (m2 + p3 + t) == (h + v1 + m1) + p2 + (m2 + p3 + t);
    FillTwo(h + v1 + m1, p2, m2, p3, t, v2, v3);
  }

  lemma AuthorityTemplate()
    ensures Message(AuthorityRestricted)
            == "" + "{role}" + (" added '" + "{keyword}" + "' - typically added by " + "{minRole}" + " or higher")
  {
  }

  /** With a brace-free role and keyword, rule 3 reads "R added 'k' - typically added by
      M or higher". A role label holding a placeholder would have it filled in turn. */
  lemma AuthorityText(role: string, k: string, minRole: string)
    requires NoBrace(role) && NoBrace(k)
    ensures FillAuthority(Message(AuthorityRestricted), role, k, minRole)
            == role + " added '" + k + "' - typically added by " + minRole + " or higher"
  {
    var a, b, c := " added '", "' - typically added by ", " or higher";
    assert NoBrace(a) && NoBrace(b) by { TemplateTextsPlain(); }
    var e: string := "";
    assert NoBrace(e);
    AuthorityTemplate();
    FillThree(e, "{role}", a, "{keyword}", b, "{minRole}", c, role, k, minRole);
    assert e + role == role;
  }

  /** In an object, the value stored under the key of a pair is that pair's value. */
  lemma UniqueGet<V>(o: Object<V>, i: nat)
    requires UniqueKeys(o) && i < |o|
    ensures Get(o, o[i].0) == Some(o[i].1)
  {
    var j := KeyIndex(o, o[i].0).value;
    assert Keys(o)[i] == o[i].0;
  }
}
