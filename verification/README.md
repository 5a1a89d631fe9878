# WordPress Trac triage helpers, modelled in Dafny

This project models the decision logic of a browser extension that annotates WordPress
Trac ticket pages. The page itself (the DOM, CSS, storage, timers) is not modelled. Each
scraped change of a ticket is a `ChangeLog.Change` record instead. It carries:

- the element id;
- the author elements and header;
- the date elements;
- the keyword items, as text plus `<em>` names;
- the milestone item.

Everything the scripts compute from those records is stated as pure functions and proved
against independent characterisations. The modelled parts are:

- **Change-log extractors** of `content/trac-sidebar.js`, with the older copies in
  `content/test-simple.js`:
  - the "last added" keyword history;
  - the per-change keyword timeline;
  - the milestone history;
  - the recent-comments list;
  - the last comment of a user;
  - the patches of an author.
- **Keyword validation**: the self-applied `needs-testing` rule, the redundant-pair rule
  and the authority rule, with their message templates.
- **Sidebar layout**:
  - section switches and orders, with their defaults;
  - the stable ascending sort of the sections;
  - where the late legend is inserted;
  - the role-rank sort and labels.
- **Comment highlighting** of both scripts, with the role counts that feed the legend.
- **The content script `content/triage-helper.js`**:
  - the configuration merge and feature switches;
  - ticket-page detection, keyword and component cells;
  - username extraction;
  - role-label detection and the user-type priority chain;
  - the keyword sidebar grouping;
  - the component-maintainer box.
- **The options page `options/options.js`**: the user-list parser, load, save and reset.
- **The static tables**: the keyword glossary, the maintainers and their profiles, role
  ranks and colours, keyword equivalences, and validation rules. Their cross-table
  consistency is proved as lemmas.

JavaScript objects are modelled as `Objects.Object<V>`, a sequence of key/value pairs
kept in insertion order. Assignment and lookup see the object's own keys only; the keys
every object inherits from `Object.prototype` are left out (see "## Left out"). Regular
expressions are hand-written matchers in `Patterns`. Each matcher follows the
backtracking the engine performs for that one pattern: greedy and lazy groups, and
leftmost search.

## Model

| member | source | states |
|---|---|---|
| Text.Trim | options/options.js:54 | The result has no leading or trailing white space, and it is cut out of the input by removing only white space (the ECMAScript `\s` set). |
| Text.TrimPadded | options/options.js:54 | Trimming white space around an already trimmed text gives that text. |
| Text.TrimIdempotent | options/options.js:54 | Trimming twice is trimming once. |
| Text.TrimKeepsOut | options/options.js:53-54 | A character absent from a line is absent from its trim, so trimmed lines of a split hold no separator. |
| Text.ToLower | content/trac-sidebar.js:2245 | The result has the input's length and each character is the lower-cased input character (ASCII letters shifted, others kept). |
| Text.ToLowerIsLower | content/triage-helper.js:289 | Lower-casing leaves no upper-case letter and is idempotent. |
| Text.ToLowerOfLower | data/keyword-data.js:18-253 | A lower-case key is its own lower-casing. |
| Text.IndexOfFrom | content/triage-helper.js:190 | `indexOf` finds the leftmost occurrence at or after the start, and none exists when it answers none. |
| Text.ContainsIff | content/trac-sidebar.js:750-757 | `includes` holds exactly when the substring occurs at some position. |
| Text.ReplaceFirst | content/trac-sidebar.js:671-704 | A string-pattern `replace` changes nothing when the pattern is absent, and otherwise substitutes only the leftmost occurrence. |
| Text.IndexOfPastPrefix | content/trac-sidebar.js:671-704 | When the text before a '{' placeholder has no '{', the placeholder is found right after that text. |
| Text.Split | options/options.js:53 | `split` on one character yields at least one piece, and no piece holds the separator. |
| Text.SplitJoin | options/options.js:26-28 | Splitting a joined list gives the list back when no element holds the separator. |
| Text.SplitCons | options/options.js:53 | A line without the separator, followed by the separator, splits off as the first piece. |
| Text.JoinSplit | options/options.js:53 | Joining the pieces of a split gives the original text back. |
| Text.NonEmpty | options/options.js:55 | The filter keeps every non-empty element, drops every empty one, and adds nothing; NonEmptyAppend and NonEmptyOne fix its order and multiplicity. |
| Text.NonEmptyAppend | options/options.js:55 | Filtering a concatenation is filtering each part and concatenating, so kept elements keep their order and their number of occurrences. |
| Text.NonEmptyOne | options/options.js:55 | A single element is kept exactly when it is non-empty. |
| Text.SplitOnSpaces | content/triage-helper.js:69-71 | `split(/\s+/)` yields at least one piece, and no piece holds white space. |
| Text.Words | content/triage-helper.js:69-71 | Every word is non-empty and holds no white space. |
| Text.WordsOfJoin | content/triage-helper.js:69-71 | Splitting space-joined words gives the words back. |
| Text.JoinTrimmed | content/triage-helper.js:68-71 | Words joined by single spaces form a trimmed text. |
| Text.StrLessIrreflexive | content/triage-helper.js:315 | The string order of `sort()` is irreflexive. |
| Text.StrLessTotal | content/triage-helper.js:315 | Any two distinct strings are ordered one way or the other. |
| Text.StrLessTransitive | content/triage-helper.js:315 | The string order is transitive. |
| Text.StrLessAsymmetric | content/triage-helper.js:315 | The string order is asymmetric. |
| Text.Reverse | content/trac-sidebar.js:832 | `reverse` keeps the length and puts element `i` at position `n-1-i`. |
| Text.ReverseAppend | content/trac-sidebar.js:832 | Reversing a concatenation reverses the order of the parts. |
| Text.Decimal | content/trac-sidebar.js:1055 | A printed number is a non-empty digit string with no leading zero unless it is 0. |
| Text.DecimalRoundTrip | content/trac-sidebar.js:1055 | Reading a printed number gives the number back. |
| Objects.Keys | content/trac-sidebar.js:315 | The keys of an object, one per pair, in insertion order. |
| Objects.KeyIndex | content/trac-sidebar.js:560-571 | The position of a key is the first pair holding it, and there is none exactly when the key is absent. |
| Objects.Get | content/trac-sidebar.js:560-571 | Reading a property is absent exactly when the key is absent, and otherwise returns a value stored under the key. |
| Objects.Set | content/trac-sidebar.js:560-571 | Assignment stores the value under its key, leaves every other key's value alone, keeps an existing key in place, appends a new key, and keeps keys unique. |
| Objects.KeyIndexFirst | content/trac-sidebar.js:560-571 | Any index that holds the key with no earlier index holding it is the key's position. |
| Objects.LastValue | content/trac-sidebar.js:1111-1124 | The value of the last assignment to a key, and none when no assignment touches the key. |
| Objects.SetAll | content/trac-sidebar.js:1118-1122 | A run of assignments gives each key its last assigned value, leaves unassigned keys alone, keeps keys unique, and keeps the old keys as a prefix. |
| Objects.FromScratch | content/trac-sidebar.js:1118-1122 | An object built from `{}` by assignments has unique keys, the last value of each key, and exactly the assigned keys. |
| Objects.LastValueConst | content/trac-sidebar.js:560-571 | When one event is assigned to many keys, each of those keys ends with that event. |
| Sorting.OnlyKey | content/trac-sidebar.js:2342-2346 | The elements with a given key, in order, form a subsequence whose elements all have that key. |
| Sorting.Insert | content/trac-sidebar.js:2342-2346 | Inserting an element adds exactly that element to the multiset and keeps a sorted sequence sorted. |
| Sorting.SortBy | content/trac-sidebar.js:2342-2346 | The sort is a permutation of its input and its output is sorted by the key. |
| Sorting.OnlyKeyAppend | content/trac-sidebar.js:2342-2346 | Selecting a key commutes with concatenation. |
| Sorting.AboveFirst | content/trac-sidebar.js:2342-2346 | In a sorted sequence whose first key is above `k`, no key equals `k`. |
| Sorting.OnlyKeyNone | content/trac-sidebar.js:2342-2346 | A key held by no element selects nothing. |
| Sorting.OnlyKeyInsert | content/trac-sidebar.js:2342-2346 | Inserting into a sorted sequence places the element after every element with its key. |
| Sorting.SortByStable | content/trac-sidebar.js:2342-2346 | The sort is stable: the elements with any one key keep their input order. |
| Sorting.SortBySorted | content/trac-sidebar.js:2342-2346 | Sorting a sorted sequence leaves it unchanged. |
| Sorting.InsertLast | content/trac-sidebar.js:2342-2346 | An element no smaller than every key is appended. |
| Sorting.RealLessOrder | content/trac-sidebar.js:2343 | Numeric `<` on section orders is a strict total order. |
| Sorting.AtMostOnce | content/triage-helper.js:315 | An element of a duplicate-free sequence occurs at most once. |
| Sorting.PermutationNoDuplicates | content/triage-helper.js:315 | A permutation of a duplicate-free sequence is duplicate-free. |
| Sorting.SortedStrictly | content/triage-helper.js:315 | A sorted sequence with distinct keys is strictly increasing. |
| Tables.FindKey | data/keyword-data.js:18-253 | A table search returns an entry stored under the key at some position, and reports none only when no position in range holds the key. |
| Tables.FindKeyComplete | data/keyword-data.js:18-253 | When every entry sits at a position of the table, the search from position 0 finds the key exactly when some entry has it. |
| Tallies.Bump | content/trac-sidebar.js:78 | One count update grows the object by at most one key. |
| Tallies.Distinct | content/trac-sidebar.js:163 | The distinct roles are at most as many as the roles. |
| Tallies.Occurrences | content/trac-sidebar.js:78 | A role occurs at most as often as the list is long. |
| TallyLaws.BumpIsSet | content/trac-sidebar.js:78 | `roleStats[role] = (roleStats[role] \|\| 0) + 1` is an object assignment of one more than the current count. |
| TallyLaws.TallyStep | content/trac-sidebar.js:65-78 | Counting one more role is one more bump. |
| TallyLaws.TallyPrefix | content/trac-sidebar.js:65-78 | Counting the first `i+1` roles bumps the count of the first `i` with role `i`. |
| TallyLaws.DistinctStep | content/trac-sidebar.js:78 | A new role joins the distinct roles at the end, and a repeated one changes nothing. |
| TallyLaws.OccurrencesStep | content/trac-sidebar.js:78 | Appending a role adds one to its occurrences and leaves the other roles alone. |
| TallyLaws.DistinctMembers | content/trac-sidebar.js:163 | The distinct roles are exactly the roles that occur. |
| TallyLaws.OccurrencesPositive | content/trac-sidebar.js:78 | A role occurs a positive number of times exactly when it is in the list. |
| TallyLaws.GetBumped | content/trac-sidebar.js:78 | A bump adds one to the role's count, starting from 0. |
| TallyLaws.GetOther | content/trac-sidebar.js:78 | A bump leaves other roles' counts alone. |
| TallyLaws.TallyCount | content/trac-sidebar.js:62-78 | A role's count is its number of occurrences, and a role that never occurs has no entry. |
| TallyLaws.TallyGet | content/trac-sidebar.js:62-78 | A role's entry exists exactly when the role is in the list, and holds its number of occurrences. |
| TallyLaws.TallyKeys | content/trac-sidebar.js:62-78 | The count object's keys are the distinct roles in order of first appearance. |
| TallyLaws.TallyUnique | content/trac-sidebar.js:62-78 | No role is counted under two keys. |
| Patterns.Leftmost | content/trac-sidebar.js:364 | A non-global `match` finds the first start index where the pattern matches, and none exists when it answers none. |
| Patterns.TimeAt | content/trac-sidebar.js:364 | An anchored match of the relative-time pattern starts with a digit and ends with "ago". |
| Patterns.PhraseAt | content/trac-sidebar.js:364 | Group 1 exists at an index exactly when the whole pattern matches there, and it is the text from that index to the end of "ago". |
| Patterns.TimeAgo | content/trac-sidebar.js:364 | The captured phrase is a match of the relative-time pattern found in the text, and there is none exactly when no position matches. |
| Patterns.TimeAgoFinds | content/trac-sidebar.js:364 | When the pattern matches at some position, the search finds a phrase. |
| Patterns.TracChangeAt | content/trac-sidebar.js:410 | The `trac-change-(\d+)-` capture is a non-empty run of digits. |
| Patterns.ParamValueAt | content/trac-sidebar.js:429 | A `name=([^&]+)` value anchored at a position is non-empty and holds no '&'. |
| Patterns.QueryUserAt | content/trac-sidebar.js:429 | A `reporter`/`owner`/`author` query value is non-empty and holds no '&'. |
| Patterns.ReporterAt | content/triage-helper.js:108 | The `reporter=([^&]+)` capture is non-empty and holds no '&'. |
| Patterns.FirstCapture | content/trac-sidebar.js:429-430 | A capture exists exactly when the pattern matches somewhere, and it is the capture at the leftmost matching position. |
| Patterns.ProfileAt | content/trac-sidebar.js:430 | The profile-path capture is non-empty and holds no '/'. |
| Patterns.StripRoleLabel | content/trac-sidebar.js:446 | Removing the trailing role label keeps a prefix of the text. The cut is at the first position where optional spaces, a label and the rest of the line follow, and no earlier position qualifies. |
| Patterns.FirstRoleLabel | content/trac-sidebar.js:549 | The first position from which spaces, a role label and the rest of the text follow, and no earlier position does. |
| Patterns.StripKeywordsPrefix | content/trac-sidebar.js:515 | Removing `^Keywords\s+` keeps a suffix, and a text not starting with "Keywords" is unchanged. |
| Patterns.ActionAt | content/test-simple.js:326 | The `\s+(added\|removed)` tail starts at a white-space character. |
| Patterns.LazyCapture | content/test-simple.js:326 | The lazy `(.+?)` capture holds no line terminator and is followed by the action tail. |
| Patterns.CaptureFrom | content/test-simple.js:326 | After backtracking the first `\s+`, the capture is non-empty, holds no line terminator and is followed by an action. |
| Patterns.OldKeywordAt | content/test-simple.js:326 | An anchored match of `Keywords?\s+(.+?)\s+(added\|removed)` captures a non-empty single-line text. |
| Patterns.ChangedFromAt | content/trac-sidebar.js:870 | Both captures of `changed from\s+([^\s]+)\s+to\s+([^\s]+)` are non-empty and free of white space. |
| Patterns.SetToAt | content/trac-sidebar.js:871 | The capture of `set to\s+([^\s]+)` is non-empty and free of white space. |
| Patterns.LabelPrefixFrom | content/triage-helper.js:193 | The lazy letters-and-spaces group stops at a position followed by a relative-time phrase, or at the end. |
| Patterns.RoleLabelPrefix | content/triage-helper.js:193 | Group 1 of the role-label pattern is a non-empty prefix made of letters and spaces. |
| Patterns.LabelOnlyText | content/triage-helper.js:193-196 | A text of letters and spaces only is captured whole. |
| Patterns.LabelRunsToEnd | content/triage-helper.js:193 | Without a digit, the lazy group runs to the end of the text. |
| ChangeLog.Anchor | content/trac-sidebar.js:819 | An id gives the link "#" followed by the id, and an empty id gives none. |
| ChangeLog.HeaderTime | content/trac-sidebar.js:360-368 | The header's relative-time phrase, or "unknown" when there is no header or no phrase. |
| ChangeLog.RelativeTime | content/trac-sidebar.js:789-815 | The trimmed timeline link text unless it is missing or "unknown". Then the trimmed time span on the same condition. Then the header phrase. |
| ChangeLog.CleanAuthor | content/trac-sidebar.js:770-785 | The trimmed username span when present. Otherwise the trimmed badge-free author text cut at its first role label (the leftmost match of the label pattern), which is a prefix of it. The fallback when there is no author element. |
| ChangeLog.LabelOr | content/trac-sidebar.js:787 | The author's label when it is present and non-empty, otherwise the fallback. |
| KeywordData.Entry | data/keyword-data.js:18-253 | An entry carries its keyword's category, critical flag and aliases. |
| KeywordData.Lookup | data/keyword-data.js:18-253 | Looking up a string finds the keyword stored under it, and none only when no keyword has that name. |
| KeywordData.KeywordDefinitions | data/keyword-data.js:256 | `KEYWORD_DATA[s]` (the same table as KEYWORD_DEFINITIONS) is the entry of the keyword named `s`, and none exactly when no keyword has that name. |
| KeywordData.OrdinalInRange | data/keyword-data.js:18-253 | Every keyword sits at its own position of the table. |
| KeywordData.CategoriesConfigured | data/keyword-data.js:259-268 | Every keyword's category is a key of CATEGORY_CONFIG. |
| KeywordData.KeysLowerCase | data/keyword-data.js:18-253 | Every key is lower case. |
| KeywordData.LowerCasedLookupFinds | content/trac-sidebar.js:2245 | Looking up the lower-cased form of any key finds an entry. |
| KeywordData.LowerCaseNamesA | data/keyword-data.js:19-59 | The first five keys are lower case. |
| KeywordData.LowerCaseNamesB | data/keyword-data.js:60-99 | The next five keys are lower case. |
| KeywordData.LowerCaseNamesC | data/keyword-data.js:100-139 | The next five keys are lower case. |
| KeywordData.LowerCaseNamesD | data/keyword-data.js:140-179 | The next five keys are lower case. |
| KeywordData.LowerCaseNamesE | data/keyword-data.js:180-219 | The next five keys are lower case. |
| KeywordData.LowerCaseNamesF | data/keyword-data.js:220-252 | The last four keys are lower case. |
| KeywordData.AliasesSymmetric | data/keyword-data.js:147-164 | needs-user-docs and needs-codex name each other as aliases and share category, description and usage. No other keyword has aliases. |
| KeywordData.CriticalKeywords | data/keyword-data.js:33 | Exactly needs-patch, needs-testing and dev-feedback are critical (lines 33, 57 and 105). |
| Maintainers.ProfileFallback | content/trac-sidebar.js:326 | The built profile URL starts with the profiles host, ends with '/', and is the username plus 32 characters long. |
| Maintainers.MaintainerOrdinalInRange | data/maintainers-data.js:69-165 | Every profile sits at its own position of the table. |
| Maintainers.ComponentOrdinalInRange | data/maintainers-data.js:10-66 | Every component sits at its own position of the table. |
| Maintainers.FindMaintainer | data/maintainers-data.js:69-165 | The profile found is stored under the username, and none means no profile has that username. |
| Maintainers.MaintainerProfiles | data/maintainers-data.js:69-165 | `MAINTAINER_PROFILES[u]` exists exactly when some profile has username `u`, and carries that profile's URL. |
| Maintainers.FindComponent | data/maintainers-data.js:10-66 | The component found is stored under the name, and none means no component has that name. |
| Maintainers.Usernames | data/maintainers-data.js:10-66 | The usernames of a member list, in order. |
| Maintainers.ComponentMaintainers | data/maintainers-data.js:10-66 | `COMPONENT_MAINTAINERS[name]` exists exactly when a component has that name, and lists its members' usernames in order. |
| Maintainers.ListedMaintainersHaveProfiles | data/maintainers-data.js:8 | Every username listed under a component has a MAINTAINER_PROFILES entry, as the file header asks. |
| Maintainers.ProfileUrlsCanonical | data/maintainers-data.js:69-165 | Every stored profile URL equals the URL the sidebar builds from the username. |
| Maintainers.ProfileUrlsCanonicalA | data/maintainers-data.js:70-79 | The first two profile URLs are canonical. |
| Maintainers.ProfileUrlsCanonicalB | data/maintainers-data.js:80-89 | The next two profile URLs are canonical. |
| Maintainers.ProfileUrlsCanonicalC | data/maintainers-data.js:90-99 | The next two profile URLs are canonical. |
| Maintainers.ProfileUrlsCanonicalD | data/maintainers-data.js:100-109 | The next two profile URLs are canonical. |
| Maintainers.ProfileUrlsCanonicalE | data/maintainers-data.js:110-119 | The next two profile URLs are canonical. |
| Maintainers.ProfileUrlsCanonicalF | data/maintainers-data.js:120-129 | The next two profile URLs are canonical. |
| Maintainers.ProfileUrlsCanonicalG | data/maintainers-data.js:130-139 | The next two profile URLs are canonical. |
| Maintainers.ProfileUrlsCanonicalH | data/maintainers-data.js:140-149 | The next two profile URLs are canonical. |
| Maintainers.ProfileUrlsCanonicalI | data/maintainers-data.js:150-159 | The next two profile URLs are canonical. |
| Maintainers.ProfileUrlsCanonicalJ | data/maintainers-data.js:160-165 | The last profile URL is canonical. |
| Maintainers.NoDuplicateMaintainers | data/maintainers-data.js:10-66 | No component lists the same username twice. |
| Roles.RankOr | content/trac-sidebar.js:687 | `ROLE_HIERARCHY[role] \|\| fallback` is the stored rank when present and non-zero, and the fallback for a role that is not stored. |
| Roles.RanksInRange | data/role-hierarchy.js:7-16 | Every rank lies in 1..5, so the fallback applies only to roles missing from the table. |
| Roles.AuthorityOrder | data/role-hierarchy.js:4-16 | Project Lead, Lead Developer, Core Committer, Component Maintainer and Regular User have strictly increasing ranks. |
| Roles.EqualRanks | data/role-hierarchy.js:10-14 | Emeritus Committer ranks with Core Committer. Lead Tester and Themes Committer rank with Component Maintainer. |
| Roles.SameRoles | data/role-hierarchy.js:7-28 | ROLE_HIERARCHY and ROLE_COLORS have the same keys. |
| Roles.RegularUserBottom | data/role-hierarchy.js:15 | Regular User has rank 5, the largest, which is also the `\|\| 5` fallback. No lookup with that fallback exceeds 5. |
| Equivalencies.TwoPairs | data/keyword-equivalencies.js:8-11 | There are exactly two pairs: 2nd-opinion to needs-review, and needs-test-info to reporter-feedback. |
| Equivalencies.NotChained | data/keyword-equivalencies.js:8-11 | No equivalent is itself a key. |
| Equivalencies.Listed | data/keyword-data.js:18-253 | A keyword's own name is a key of the glossary. |
| Equivalencies.AllDefined | data/keyword-equivalencies.js:8-24 | Every key and value of the pairs, and every restricted keyword, is defined in KEYWORD_DATA. |
| Equivalencies.PairDefined | data/keyword-equivalencies.js:8-11 | A pair's key and value are both defined in KEYWORD_DATA. |
| Equivalencies.RestrictedDefined | data/keyword-equivalencies.js:15-24 | A restricted keyword is defined in KEYWORD_DATA. |
| Equivalencies.Restrictions | data/keyword-equivalencies.js:15-24 | The restricted keywords are dev-feedback (Component Maintainer) and commit (Core Committer), and both roles are ranked. |
| ValidationRules.PairsAreEquivalencies | data/validation-rules.js:29-32 | The redundant-keywords pairs equal KEYWORD_EQUIVALENCIES. |
| ValidationRules.EnabledRules | data/validation-rules.js:7 | A rule is enabled exactly when it is the self-applied rule or the redundant-keywords rule (lines 7, 26, 47 and 73). |
| ValidationRules.RulesWellFormed | data/validation-rules.js:89-108 | Every rule's source type is a key of VALIDATION_RULE_SOURCES, and every severity is high, medium or low. |
| ValidationRules.AuthorityKeywordsRanked | data/validation-rules.js:50-59 | The authority rule restricts the same keywords, to the same roles, as AUTHORITY_RESTRICTED_KEYWORDS, and every minRole is ranked. |
| ValidationRules.TemplateTextsPlain | data/validation-rules.js:33-34 | The fixed text between the placeholders of the templates holds no '{'. |
| Validation.FilterMap | content/trac-sidebar.js:632-710 | The collected results are exactly the present results of the inputs, and there are no more of them than inputs. |
| Validation.CurrentKeywords | content/trac-sidebar.js:616-618 | The current keywords are non-empty and free of white space, and there are none without a keywords cell. |
| Validation.SelfAppliedIssue | content/trac-sidebar.js:632-654 | Rule 1 reports an entry exactly when it records the rule's keyword and its author has attached a patch. The issue carries the author, the rule's message and the rule's severity. |
| Validation.SomeLower | content/trac-sidebar.js:663 | The case-insensitive `some` holds exactly when some keyword lower-cases to the target's lower-casing. |
| Validation.RedundantIssue | content/trac-sidebar.js:657-678 | Rule 2 reports a keyword exactly when it is redundant. Its message is the template with the keyword and its equivalent filled in. |
| Validation.AuthorityIssue | content/trac-sidebar.js:681-710 | Rule 3 reports an entry exactly when its author is outranked. The issue carries the author, the author's role, the filled message and the recommendation with the reason filled in. |
| Validation.SelfAppliedIssues | content/trac-sidebar.js:632-654 | Nothing when rule 1 is off. Otherwise exactly the issues of the history's entries. |
| Validation.RedundantIssues | content/trac-sidebar.js:657-678 | Nothing when rule 2 is off. Otherwise exactly the issues of the current keywords. |
| Validation.AuthorityIssues | content/trac-sidebar.js:681-710 | Nothing when rule 3 is off or the rank table is missing. Otherwise exactly the issues of the history's entries. |
| Validation.Analyze | content/trac-sidebar.js:607-713 | No issues without the rules table. Every issue comes from an enabled rule, and authority issues need the rank table. |
| Validation.SelfAppliedIssuesFound | content/trac-sidebar.js:632-654 | Rule 1 reports something exactly when it is on and the history records its keyword by an author who attached a patch. |
| Validation.InAnalyze | content/trac-sidebar.js:607-713 | The analysis reports exactly the issues of the three rules. |
| Validation.SelfAppliedReported | content/trac-sidebar.js:632-654 | The analysis holds a rule 1 issue exactly when rule 1 is on and the history records its keyword by an author who attached a patch. |
| Validation.RedundantIssuesFound | content/trac-sidebar.js:657-678 | Rule 2 flags keyword `k` exactly when it is on, `k` is current, and the lower-cased `k` has an equivalent that is present case-insensitively. |
| Validation.RedundantReported | content/trac-sidebar.js:657-678 | The analysis flags `k` under rule 2 exactly when rule 2 is on and `k` is a redundant current keyword. |
| Validation.AuthorityIssuesFound | content/trac-sidebar.js:681-710 | Rule 3 flags `k` exactly when it is on, the ranks are loaded, the history records `k`, and its author's rank (default 5) exceeds the required rank (default 4). |
| Validation.AuthorityReported | content/trac-sidebar.js:681-710 | The analysis flags `k` under rule 3 exactly under the same conditions. |
| Validation.ShippedReportsRulesOneAndTwo | data/validation-rules.js:47 | With the rules as shipped, only rules 1 and 2 ever report. |
| Validation.ShippedAuthorityOff | data/validation-rules.js:47 | The shipped authority rule is off. |
| Validation.OnlyEnabledReport | content/trac-sidebar.js:681 | With rule 3 off, every issue comes from rule 1 or 2. |
| Validation.Fill | content/trac-sidebar.js:671 | Filling a '{' placeholder that follows brace-free text replaces that placeholder. |
| Validation.NoBraceConcat | content/trac-sidebar.js:671-672 | Brace-free texts concatenate to a brace-free text. |
| Validation.FillTwo | content/trac-sidebar.js:671-672 | Two placeholders after brace-free text are filled in order. |
| Validation.RedundantMessage | data/validation-rules.js:33 | With a brace-free keyword, the shipped rule 2 message reads "'k' is redundant with existing 'e'". |
| Validation.RedundantRecommendation | data/validation-rules.js:34 | With a brace-free keyword, the shipped recommendation reads "Remove 'k' as it serves the same purpose as 'e'". |
| Validation.RedundantKeywordPlain | data/keyword-equivalencies.js:8-11 | Every keyword rule 2 can flag is brace-free. |
| Validation.FillThree | content/trac-sidebar.js:700-704 | Three placeholders after brace-free text are filled in order. |
| Validation.AuthorityTemplate | data/validation-rules.js:60 | The shipped rule 3 message is the role, keyword and minRole placeholders around fixed text. |
| Validation.AuthorityText | data/validation-rules.js:60 | With a brace-free role and keyword, rule 3 reads "R added 'k' - typically added by M or higher". |
| Validation.UniqueGet | content/trac-sidebar.js:681-710 | In an object, the value stored under a pair's key is that pair's value. |
| KeywordHistory.EmNames | content/trac-sidebar.js:520-522 | One trimmed name per `<em>` of the item, in order. |
| KeywordHistory.Segments | content/trac-sidebar.js:515-518 | An item yields at least one segment, each trimmed. |
| KeywordHistory.Mentioned | content/trac-sidebar.js:554-573 | A name is mentioned exactly when it is one of the item's names and the segment contains it. |
| KeywordHistory.AddsFrom | content/trac-sidebar.js:554-573 | A name is recorded as added exactly when some segment that says "added" contains it, including segments that also say "removed". |
| KeywordHistory.ItemAdds | content/trac-sidebar.js:554-573 | An item adds exactly those of its names that an "added" segment contains. |
| KeywordHistory.ChangeAdds | content/trac-sidebar.js:512-573 | A change adds exactly the names some keyword item adds. |
| KeywordHistory.AddedKeys | content/trac-sidebar.js:560 | Every added name gives its lower-cased key, and every key is the lower-casing of an added name. |
| KeywordHistory.LowerAll | content/trac-sidebar.js:560 | Lower-casing a list covers each element, and every result comes from an element. |
| KeywordHistory.Assignments | content/trac-sidebar.js:560-571 | The assignments of one change are its keys in order, all with the change's event. |
| KeywordHistory.AssignmentsLast | content/trac-sidebar.js:560-571 | Within one change, every assigned key gets the change's event. |
| KeywordHistory.EverAssignedLast | content/trac-sidebar.js:506-579 | A key is assigned by a log exactly when the earlier part or the last change assigns it. |
| KeywordHistory.Record | content/trac-sidebar.js:506-579 | The history has unique keys, and a key is present exactly when some change assigns it. |
| KeywordHistory.LastAssignmentWins | content/trac-sidebar.js:560-571 | The entry of a key is the event of the latest change that assigns it. |
| KeywordHistory.NothingAssigned | content/trac-sidebar.js:506-579 | A change that assigns nothing leaves the history as it was. |
| KeywordHistory.History | content/trac-sidebar.js:506-579 | extractKeywordHistory has unique keys, and a key is present exactly when some change added a keyword lower-casing to it. |
| KeywordHistory.LastAddWins | content/trac-sidebar.js:555-571 | The last add wins: a key's entry is the event of the latest change that added it. |
| KeywordHistory.HistoryKeysLowerCase | content/trac-sidebar.js:560 | Every key of the history is lower case. |
| KeywordHistory.RemovalsIgnored | content/trac-sidebar.js:555-571 | A change whose segments never say "added" leaves the history unchanged. |
| KeywordHistory.OldItemKeywords | content/test-simple.js:319-331 | An item is read exactly when its text contains "Keywords" and "added" or "removed" and the pattern matches. Its action is the first match's action, and its words are white-space free. |
| KeywordHistory.OldAddedKeysOf | content/test-simple.js:351-360 | The keys the older extractor records are lower case. |
| KeywordHistory.OldAddedKeys | content/test-simple.js:351-360 | The keys of a change in the older extractor are lower case. |
| KeywordHistory.OldEventOf | content/test-simple.js:333-360 | The older event carries the header time, the link, and the raw trimmed author text or "unknown". |
| KeywordHistory.OldHistory | content/test-simple.js:313-366 | The older history has unique lower-case keys, and a key is present exactly when some change added it. |
| KeywordHistory.OldLastAddWins | content/test-simple.js:351-360 | In the older extractor, too, a later add overwrites an earlier one. |
| KeywordHistory.OldRemovalsIgnored | content/test-simple.js:351-352 | Items whose first match says "removed", or that do not match, record nothing. |
| KeywordHistory.NothingAdded | content/trac-sidebar.js:555-571 | Items with no "added" segment add no names. |
| KeywordHistory.NoAddingSegment | content/trac-sidebar.js:555-571 | Segments that never say "added" add no names. |
| KeywordHistory.Cross | content/trac-sidebar.js:748-764 | The (segment, name) pairs walked are exactly the pairs of a segment and a name. |
| KeywordHistory.Step | content/trac-sidebar.js:756-763 | One step keeps both lists free of duplicates. |
| KeywordHistory.SaysSplit | content/trac-sidebar.js:748-764 | Whether a walk says "added", "removed" or only "removed" of a name splits into its first pair and the rest. |
| KeywordHistory.Steps | content/trac-sidebar.js:736-766 | The walk keeps both lists duplicate-free and never drops a name. Every name added is said added, every name removed is said removed, and every name said added (or only removed) ends up in the matching list. |
| KeywordHistory.ChangeLists | content/trac-sidebar.js:731-766 | Both lists are duplicate-free. The added list is exactly the names of segments saying "added", in the order first met. The removed list is exactly the names of segments saying "removed", in the order first met, where a segment that also says "added" counts only for a name added before it. |
| KeywordHistory.Dedup | content/trac-sidebar.js:757-761 | The `includes`-guarded push: no repeats, the same members, and members ordered by their first occurrence. |
| KeywordHistory.FirstAt | content/trac-sidebar.js:757 | The position of the first occurrence of a name. |
| KeywordHistory.FirstAtSnoc | content/trac-sidebar.js:757-761 | Appending a name moves no earlier first occurrence, and a new name's first occurrence is last. |
| KeywordHistory.AddMentions | content/trac-sidebar.js:748-758 | Each name listed comes from a pair whose segment says "added" and mentions it. |
| KeywordHistory.RemoveMentions | content/trac-sidebar.js:748-763 | Each name listed comes from a pair whose segment says "removed" and mentions it, and that does not say "added" unless the name was added before. |
| KeywordHistory.StepsSnoc | content/trac-sidebar.js:748-764 | Walking one more pair is one more step. |
| KeywordHistory.DedupSnoc | content/trac-sidebar.js:757-761 | Pushing a name already present changes nothing, and a new one goes last. |
| KeywordHistory.DedupStep | content/trac-sidebar.js:757-761 | A conditional push of a name, deduplicated. |
| KeywordHistory.StepCases | content/trac-sidebar.js:756-763 | One step adds the name when its segment adds it and it is new, else removes it when the segment removes it and it is new. |
| KeywordHistory.StepsExact | content/trac-sidebar.js:736-766 | The walk from empty lists gives exactly the deduplicated adding names and the deduplicated removing names. |
| KeywordHistory.EntryOf | content/trac-sidebar.js:768-829 | A change gets an entry exactly when it added or removed a keyword, with those lists. The entry carries the cleaned author ("Unknown" without an author element), the author's label or "Individual Contributor", the relative time, and "#" followed by the change id ("" for an empty id). |
| KeywordHistory.EntryList | content/trac-sidebar.js:768-829 | At most one entry per change, none exactly when it changed no keyword, and every entry has a change. |
| KeywordHistory.Entries | content/trac-sidebar.js:731-830 | No more entries than changes, and each holds a change. |
| KeywordHistory.EntriesAppend | content/trac-sidebar.js:731-830 | A new change's entry goes after the older entries. |
| KeywordHistory.NewestFirst | content/trac-sidebar.js:832 | The timeline is newest first: the latest change's entry leads and the rest follow in the same order. |
| MilestoneHistory.RawMilestones | content/trac-sidebar.js:856-879 | Two `<em>` names give from and to, one gives only to, and otherwise the text patterns decide. |
| MilestoneHistory.TextMilestones | content/trac-sidebar.js:868-878 | A "changed from X to Y" match gives both names. Otherwise only "set to" is tried, and from stays absent. |
| MilestoneHistory.CapturesTrimmed | content/trac-sidebar.js:874-877 | The text captures are already trimmed, so their `.trim()` changes nothing. |
| MilestoneHistory.NormalTo | content/trac-sidebar.js:882-884 | An empty or missing to becomes "(none)", and any other value is kept. |
| MilestoneHistory.NormalFrom | content/trac-sidebar.js:885-887 | An empty from becomes null, and any other value is kept. |
| MilestoneHistory.EntryOf | content/trac-sidebar.js:851-955 | A change has an entry exactly when it has a milestone item. The entry's to is non-empty, its from is absent or non-empty, and it carries the cleaned author, the author's label or "Individual Contributor", the relative time and the header's comment link (or ""). Its from and to are the item's raw milestones after normalisation (empty or missing from is null; empty or missing to is "(none)"). |
| MilestoneHistory.EntryList | content/trac-sidebar.js:851-955 | One entry per change with a milestone item, and none otherwise. |
| MilestoneHistory.CountWithMilestone | content/trac-sidebar.js:851-853 | No more changes with a milestone item than changes. |
| MilestoneHistory.Entries | content/trac-sidebar.js:851-956 | Exactly one well-formed entry per change with a milestone item. |
| MilestoneHistory.History | content/trac-sidebar.js:836-959 | extractMilestoneHistory has exactly one well-formed entry per change with a milestone item. |
| MilestoneHistory.EntriesAppend | content/trac-sidebar.js:851-956 | A new change's entry goes after the older entries. |
| MilestoneHistory.NewestFirst | content/trac-sidebar.js:958 | The history is newest first: the latest change's entry leads. |
| MilestoneHistory.TwoNames | content/trac-sidebar.js:860-863 | With two `<em>` names, from is the first (null if empty) and to is the second ("(none)" if empty). |
| MilestoneHistory.OneName | content/trac-sidebar.js:864-866 | With one `<em>` name, from is null and to is the name ("(none)" if empty). |
| MilestoneHistory.TextNames | content/trac-sidebar.js:867-886 | Without one or two `<em>` names, a "changed from X to Y" in the text moves from X to Y. Otherwise a "set to Y" sets Y with no origin. With neither, the milestone is "(none)" and there is no origin. |
| MilestoneHistory.FormatMilestone | content/trac-sidebar.js:982-1003 | A missing, empty or "(none)" milestone shows as none, and only a version number becomes a release link. Every other value keeps its name and the from or to colour. |
| MilestoneHistory.NotVersion | content/trac-sidebar.js:990 | "" and "(none)" are not version numbers. |
| MilestoneHistory.Line | content/trac-sidebar.js:1858-1871 | A line shows a move exactly when from is present. It shows "Milestone removed" exactly when from is absent and to is "(none)". Otherwise it shows "set to" a named milestone. |
| MilestoneHistory.SetToNamesMilestone | content/trac-sidebar.js:1866-1870 | A "set to" line of a well-formed entry names a milestone. |
| RecentComments.CommentNumber | content/trac-sidebar.js:402-416 | The number follows "comment:" or is the digits of "trac-change-N-". Other ids, and empty numbers, give none. |
| RecentComments.CommentNumberOfCommentId | content/trac-sidebar.js:404-407 | An id "comment:N" gives N back. |
| RecentComments.CommentNumberOfChangeId | content/trac-sidebar.js:408-412 | An id "trac-change-N-…" gives the digits N back. |
| RecentComments.HrefUser | content/trac-sidebar.js:424-436 | A query user value first, else a profile path, else "unknown". |
| RecentComments.RecentAuthor | content/trac-sidebar.js:420-448 | "unknown" without an author element. Otherwise the href's user when it names one. Otherwise the trimmed author text cut at the leftmost role label, as StripRoleLabel states. |
| RecentComments.RoleOf | content/trac-sidebar.js:452-458 | A role and colour exist exactly when the author has a non-empty label. The colour is the role's own or #607D8B. |
| RecentComments.CommentOf | content/trac-sidebar.js:397-499 | A change has an entry exactly when its id carries a number. The entry's link is "#" + id, with the author, date and role as above. |
| RecentComments.CommentList | content/trac-sidebar.js:397-499 | A change contributes one entry exactly when its id carries a number. |
| RecentComments.Numbered | content/trac-sidebar.js:397-499 | No more entries than changes. |
| RecentComments.NumberedAppend | content/trac-sidebar.js:397-499 | The entries of a concatenated log are the entries of each part, in order. |
| RecentComments.Take | content/trac-sidebar.js:397 | At most `count` elements, a prefix of the list, and none for a non-positive count. |
| RecentComments.NumberedFrom | content/trac-sidebar.js:397-499 | Scanning back one more change appends its entry to the newest-first list. |
| RecentComments.NewestPart | content/trac-sidebar.js:397-499 | Once the newest part yields `count` entries, older changes cannot change the answer. |
| RecentComments.GetRecentComments | content/trac-sidebar.js:381-503 | The result is the newest `count` numbered comments, newest first, so there are at most `count` of them. The same code serves content/test-simple.js:209-310 with the header-only date. |
| RecentComments.LastWhere | content/trac-sidebar.js:356-372 | The last matching position below `n`, none exactly when no position matches, and no later match. |
| RecentComments.LastWherePrefix | content/trac-sidebar.js:356-372 | A prefix answers alike whatever follows it. |
| RecentComments.LastWhereOthers | content/trac-sidebar.js:356-372 | Non-matching elements after the last match leave it in place. |
| RecentComments.LastIndexBy | content/trac-sidebar.js:348-378 | The latest change whose trimmed author is the user, and none when there is no such change. |
| RecentComments.LastCommentBy | content/trac-sidebar.js:348-378 | None exactly when the user wrote no change. Otherwise the link to the user's latest change and its header time. The same as content/test-simple.js:176-206. |
| RecentComments.LastCommentByOthers | content/trac-sidebar.js:348-378 | Changes by others after the user's last one leave the answer unchanged. |
| RecentComments.PatchName | content/trac-sidebar.js:587-598 | An attachment yields a name exactly when its trimmed author is the author and its trimmed file name ends in .patch or .diff, and the name is that trimmed file name. |
| RecentComments.PatchesBy | content/trac-sidebar.js:582-604 | The author's patches: exactly the trimmed file names of attachments by that author that end in .patch or .diff, in any case. |
| Highlight.PaletteOf | content/trac-sidebar.js:52-60 | Border and badge agree and differ from the background. Six roles have their own palette, and every other role gets the grey default. |
| Highlight.RoleOfComment | content/trac-sidebar.js:66-74 | A comment is highlighted exactly when it has an author element whose trimmed text has a non-empty label, and then with that label. |
| Highlight.Style | content/trac-sidebar.js:87-157 | A styled comment gets the role's palette. Trac's label is hidden. The role badge exists in the badge colour and keeps an earlier text. The GitHub badge is added if asked or kept if present. |
| Highlight.HighlightComment | content/trac-sidebar.js:65-160 | An unlabelled comment is left alone, and a labelled one is styled, with the GitHub badge when its header is from the sync bot. |
| Highlight.HighlightCommentSimple | content/test-simple.js:64-127 | The older copy does the same without ever adding the GitHub badge. |
| Highlight.SimpleIsNewerWithoutGitHub | content/test-simple.js:64-127 | The two copies agree on everything but the GitHub badge, which the older copy never adds. |
| Highlight.StyleIdempotent | content/trac-sidebar.js:108-157 | Styling twice is styling once: the existing badges are reused, never doubled. |
| Highlight.HighlightIdempotent | content/trac-sidebar.js:65-160 | Running either pass twice over a comment changes nothing further. |
| Highlight.RoleOf | content/trac-sidebar.js:66-74 | The handle gives each comment's highlight role. |
| Highlight.Roles | content/trac-sidebar.js:78 | No more roles than comments. |
| Highlight.RoleList | content/trac-sidebar.js:78 | A present role is a one-element list, an absent one the empty list. |
| Highlight.RolesStep | content/trac-sidebar.js:65-78 | The roles of one more comment extend the list by its role. |
| Highlight.Appearances | content/trac-sidebar.js:78 | A role appears on at most every comment. |
| Highlight.Labelled | content/trac-sidebar.js:159 | At most every comment is highlighted. |
| Highlight.AppearancesAppend | content/trac-sidebar.js:78 | One more comment adds one to its role's count and to the highlighted count. |
| Highlight.RolesCount | content/trac-sidebar.js:78 | The role list holds each role as often as comments carry it. |
| Highlight.RolesLength | content/trac-sidebar.js:159 | The role list has one entry per highlighted comment. |
| Highlight.TallyOfRoles | content/trac-sidebar.js:62-78 | A role's count in roleStats is the number of comments with that role, and an absent role has no entry. |
| Highlight.TallyNonEmpty | content/trac-sidebar.js:163 | roleStats has a key exactly when some comment is highlighted. |
| Highlight.CountRoles | content/trac-sidebar.js:62-78 | The loop's count object is the tally of the roles, and its counter the number of highlighted comments. |
| Highlight.CountHighlighted | content/test-simple.js:64-127 | The older loop counts the highlighted comments. |
| Highlight.HighlightContributors | content/trac-sidebar.js:48-166 | Each comment gets its own styling. roleStats holds each role with its number of comments, keys in order of first appearance. The legend is scheduled exactly when some comment was highlighted. |
| Highlight.HighlightContributorsSimple | content/test-simple.js:48-127 | Each comment gets the older styling, and the counter is the number highlighted. |
| Highlight.UnlabelledUntouched | content/trac-sidebar.js:72 | A comment without a label keeps its state in both copies. |
| SidebarLayout.FirstWithId | content/trac-sidebar.js:1101 | `find` returns the first preference with the id, and none when no preference has it. |
| SidebarLayout.IsSectionEnabled | content/trac-sidebar.js:1097-1103 | A section is off exactly when preferences exist and the first one with its id is disabled. |
| SidebarLayout.OrderPairs | content/trac-sidebar.js:1118-1122 | One (id, order) assignment per preference, in list order. |
| SidebarLayout.GetSectionOrder | content/trac-sidebar.js:1106-1124 | The fixed defaults without preferences. Otherwise each id maps to the order of its last preference. Keys are unique. |
| SidebarLayout.LastPreferenceWins | content/trac-sidebar.js:1118-1122 | A later preference for the same section overrides an earlier one. |
| SidebarLayout.DefaultOrdersStored | content/trac-sidebar.js:1108-1116 | Without preferences, keyword history takes its default 4 rather than its fallback 3.5, and keywords 6 rather than 7. |
| SidebarLayout.DefaultOrdersMissing | content/trac-sidebar.js:1020 | Without preferences, the legend's target order falls back to 4, since the defaults do not name the legend. |
| SidebarLayout.OrderOr | content/trac-sidebar.js:1725 | `sectionOrder[id] \|\| fallback` is the stored order unless it is missing or 0. |
| SidebarLayout.Planned | content/trac-sidebar.js:1424-2340 | The queued sections are exactly the enabled candidates with something to show, each with its stored order or its fallback. |
| SidebarLayout.Layout | content/trac-sidebar.js:2342-2346 | The rendered sections are a permutation of the queued ones in ascending order. Sections with equal order keep their push order. |
| SidebarLayout.LayoutMembers | content/trac-sidebar.js:2342-2346 | The rendered sections are exactly the queued ones. |
| SidebarLayout.NotPlanned | content/trac-sidebar.js:1424-2340 | A section that is not among the candidates is never queued. |
| SidebarLayout.FromTail | content/trac-sidebar.js:1424-2340 | A candidate of the later sections is a candidate of all of them. |
| SidebarLayout.ValidationNeverRendered | content/trac-sidebar.js:2132-2206 | The keyword-validation section is never rendered, whatever the preferences and page, because its push sits inside a comment. |
| SidebarLayout.SectionIdOf | content/trac-sidebar.js:1077 | An empty element id gives no section id, and a section id is never empty. |
| SidebarLayout.SectionIdOfSection | content/trac-sidebar.js:1077 | A section's element id gives its id back. |
| SidebarLayout.LegendSlot | content/trac-sidebar.js:1073-1084 | The legend goes before the first child whose stored order exceeds the target, and no earlier child qualifies. |
| SidebarLayout.WithLegend | content/trac-sidebar.js:1086-1090 | The legend is inserted at that slot, or appended when there is none. |
| SidebarLayout.AddLegend | content/trac-sidebar.js:1006-1094 | Nothing changes without a sidebar or with the legend off. Otherwise the children grow by exactly one element and the legend is among them; its position is the one WithLegend states. |
| SidebarLayout.SortedRoles | content/trac-sidebar.js:1032-1036 | The legend's roles are a permutation of roleStats, ascending by rank (default 5), and tied roles keep the order in which they were first counted, as the stable sort leaves them. |
| SidebarLayout.UnrankedKeepOrder | content/trac-sidebar.js:1032-1036 | Without the rank table every role ties, and the stable sort keeps the order roles were first met. |
| SidebarLayout.RoleColor | content/trac-sidebar.js:962-979 | ROLE_COLORS, or the built-in palette when that table is missing, with #757575 for roles neither knows. |
| SidebarLayout.CountLabel | content/trac-sidebar.js:1055 | "N comment", with an "s" for more than one. |
| SidebarLayout.DaysLabel | content/trac-sidebar.js:1653-1661 | "Today", "Tomorrow", "N days ago" for the past, "in N days" for the future. |
| SidebarLayout.DecimalThen | content/trac-sidebar.js:1055 | Two printed numbers followed by non-digit text agree only when the numbers and the texts agree. |
| SidebarLayout.CountLabelInjective | content/trac-sidebar.js:1055 | Different counts get different labels. |
| SidebarLayout.DaysLabelInjective | content/trac-sidebar.js:1653-1661 | Different day counts get different labels. |
| SidebarLayout.LabelShapes | content/trac-sidebar.js:1653-1661 | The first characters tell the four kinds of day label apart. |
| Settings.ListOrEmpty | content/triage-helper.js:163-164 | `list \|\| []` is the list, or empty when missing. |
| Settings.Override | content/triage-helper.js:23 | One spread key is the stored value when present, otherwise the current one. |
| Settings.Merge | content/triage-helper.js:23 | `{ ...config, ...stored }` overrides each top-level key separately, and customUsers as a whole. |
| Settings.LoadConfig | content/triage-helper.js:8-27 | The defaults when nothing is stored, and otherwise the defaults merged with the stored object. |
| Settings.Stored | content/triage-helper.js:23 | The object holding every key of a configuration. |
| Settings.Overlay | content/triage-helper.js:23 | Overlaying two stored objects keeps a key when either has it, with the later one winning. |
| Settings.MergeNothing | content/triage-helper.js:23 | An empty stored object changes nothing. |
| Settings.MergeIdempotent | content/triage-helper.js:23 | Merging the same object twice is merging it once. |
| Settings.MergeTwice | content/triage-helper.js:23 | Two merges are one merge with the overlay. |
| Settings.MergeComplete | content/triage-helper.js:23 | A stored object with every key replaces the configuration. |
| Settings.MergeIsShallow | content/triage-helper.js:12-23 | A stored customUsers without componentMaintainers loses the default's list, because the merge is shallow. |
| OptionsPage.Checked | options/options.js:19-21 | A switch is checked exactly when the stored value is true. |
| Text.TrimAll | options/options.js:54 | Each line trimmed, in order. |
| Text.TrimAllIsMap | options/options.js:54 | Trimming every line is `map` with `trim`. |
| Text.MapCons | options/options.js:54 | `map` over a list with a head maps the head, then the rest in order. |
| Text.TrimAllTrimmedEach | options/options.js:54 | Every line of a trimmed list is trimmed. |
| OptionsPage.ParseUserList | options/options.js:51-56 | Every entry is non-empty, trimmed and on one line, and is a trimmed line of the text; ParseOneLine and ParseLines fix the order and multiplicity. |
| OptionsPage.LineEntry | options/options.js:54-55 | One line contributes its trimmed text, or nothing when that is blank. |
| OptionsPage.ParseOneLine | options/options.js:51-56 | A text without a line break parses to its one line's entry. |
| OptionsPage.ParseLines | options/options.js:51-56 | The first line's entry comes first and the other lines' entries follow in order, so lines keep their order and a repeated name is kept as often as it appears. |
| OptionsPage.TrimAllCons | options/options.js:54 | Trimming lines maps over them one by one, the first line first. |
| OptionsPage.TrimAllClean | options/options.js:53-54 | Trimmed split lines are trimmed and hold no line break. |
| OptionsPage.LoadSettings | options/options.js:14-31 | The page defaults when nothing is stored. Each switch is checked exactly when its value is true, and each list is joined one name per line. The text areas are kept when customUsers is missing. |
| OptionsPage.SaveSettings | options/options.js:34-48 | The saved object holds the three switches and the two parsed lists, and nothing else. |
| OptionsPage.ResetSettings | options/options.js:59-68 | A declined reset changes nothing. A confirmed one stores exactly the page defaults and shows all switches on and empty lists. |
| OptionsPage.ParseJoin | options/options.js:26-28 | Names that are non-empty, trimmed and on one line survive a join and parse unchanged. |
| OptionsPage.ParseEmpty | options/options.js:51-56 | An empty text holds no names. |
| OptionsPage.TrimAllTrimmed | options/options.js:54 | Trimming already trimmed lines changes nothing. |
| OptionsPage.NonEmptyAll | options/options.js:55 | Filtering a list without empty strings keeps it. |
| OptionsPage.ParseIdempotent | options/options.js:51-56 | Parsing the join of a parsed list gives that list again. |
| OptionsPage.SaveLoadSave | options/options.js:14-48 | Saved settings load back with the same switches and one name per line, and saving again stores the same object. |
| OptionsPage.SavedConfigInContent | content/triage-helper.js:20-26 | After a save the content script runs with the form's switches and lists and without a componentMaintainers list. |
| OptionsPage.ResetConfigInContent | options/options.js:3-11 | After a reset the content script runs with its own defaults, except the componentMaintainers list the page defaults lack. |
| TriageHelper.Initialize | content/triage-helper.js:30-56 | Nothing runs off ticket pages. On a ticket page each feature runs exactly when its switch is on. |
| TriageHelper.TicketPagesRunEverything | content/triage-helper.js:59-61 | With nothing stored, every path holding "/ticket/" followed by a digit runs every feature. |
| TriageHelper.TicketKeywords | content/triage-helper.js:64-72 | The keywords are non-empty and free of white space. A missing or blank cell gives none. |
| TriageHelper.KeywordsOfCell | content/triage-helper.js:64-72 | A cell holding space-separated keywords, with any spacing around them, gives those keywords back in order. |
| TriageHelper.TicketComponent | content/triage-helper.js:75-78 | A component exists exactly when the cell does, and it is the cell's trimmed text. |
| TriageHelper.DropAt | content/triage-helper.js:111 | One leading '@' is removed, and any other text is kept. |
| TriageHelper.QueryReporter | content/triage-helper.js:106-110 | A reporter is read only from an href containing "/query?". It is non-empty and holds no '&'. |
| TriageHelper.ExtractUsername | content/triage-helper.js:105-112 | The query's reporter when there is one, otherwise the trimmed text without one leading '@'. |
| TriageHelper.UsernameOfQueryLink | content/triage-helper.js:106-109 | A link to a reporter's query page names that reporter, whatever its text. |
| TriageHelper.QueryReporterAt | content/triage-helper.js:108 | The pattern finds the reporter in "/query?reporter=u". |
| TriageHelper.UsernameOfText | content/triage-helper.js:111 | A plain link names the user its text shows, whatever the spacing around it. |
| TriageHelper.UsernameOfAtText | content/triage-helper.js:111 | The '@' before a name is not part of the username. |
| TriageHelper.AtNameTrimmed | content/triage-helper.js:111 | "@" plus a trimmed name is trimmed and loses exactly the '@'. |
| TriageHelper.PlainLinkUsername | content/triage-helper.js:105-112 | A link without an href is named by its trimmed text without one leading '@'. |
| TriageHelper.KindNamesDistinct | content/triage-helper.js:217-235 | The user types have distinct class names. |
| TriageHelper.RoleMap | content/triage-helper.js:199-210 | The map knows exactly its six labels, and each entry keeps its key as its label. |
| TriageHelper.Clamp | content/triage-helper.js:190 | `substring` clamps its start into 0..length. |
| TriageHelper.AfterName | content/triage-helper.js:190 | The text after the first occurrence of the name. When the name is absent, indexOf's -1 makes it the text from `name.length - 1`. |
| TriageHelper.DetectRoleLabel | content/triage-helper.js:179-214 | A detected role needs a parent container and is an entry of the six-item roleMap. Inherited keys are left out, see "## Left out". |
| TriageHelper.DetectsLabelAfterName | content/triage-helper.js:188-210 | A title of letters and spaces after the name, with any spacing between, is looked up as it is. |
| TriageHelper.DetectFromAfter | content/triage-helper.js:190-210 | When the trimmed text after the name is a letters-only title, that title is looked up. |
| TriageHelper.AfterNameAtStart | content/triage-helper.js:190 | The text after a leading name is the rest. |
| TriageHelper.ContributorLabel | content/triage-helper.js:143-144 | The page's label of the user, present exactly when the table exists and holds a non-empty label. |
| TriageHelper.ContributorKind | content/triage-helper.js:148-158 | typeMap gives core-committer for the three leading roles, emeritus and lead-tester for theirs, and contributor otherwise. |
| TriageHelper.GetUserType | content/triage-helper.js:115-176 | The first source that knows the user decides, in this order: a role label, the component's maintainers, the reporter, the page label (through typeMap), then the custom committers and testers. |
| TriageHelper.UnknownUsers | content/triage-helper.js:115-176 | A user is left unhighlighted exactly when no source knows them. |
| TriageHelper.CustomListsOnlyAdd | content/triage-helper.js:162-173 | The custom lists only add users, because whoever the page identifies keeps that type. |
| TriageHelper.CustomListsApply | content/triage-helper.js:162-173 | A custom committer, and otherwise a custom tester, the page does not identify gets the custom type. |
| TriageHelper.HasVisibleTracRoleLabel | content/triage-helper.js:250-257 | True exactly when the header text contains one of the four known role strings. |
| TriageHelper.ContainsAny | content/triage-helper.js:256 | `some(includes)` holds exactly when some listed string occurs. |
| TriageHelper.DeveloperLabelsNotKnown | content/triage-helper.js:199-206 | Core Developer and Contributing Developer are the roleMap labels missing from the visible-label list, which is contained in the roleMap. |
| TriageHelper.HighlightOf | content/triage-helper.js:86-99 | A comment is highlighted exactly when it has an author link, a non-empty username and a user type. The badge is added exactly when the link has a parent and no role label is visible. |
| TriageHelper.CountSome | content/triage-helper.js:98 | At most every comment is counted. |
| TriageHelper.CountSomePrefix | content/triage-helper.js:98 | One more comment adds one exactly when it is highlighted. |
| TriageHelper.CountSomeZero | content/triage-helper.js:98 | The count is zero exactly when no comment is highlighted. |
| TriageHelper.HighlightComments | content/triage-helper.js:81-102 | Each comment gets its own highlight, and the count is the number highlighted. |
| KeywordSidebar.ItemOfEntry | content/triage-helper.js:289-290 | An item keeps its keyword as written, with the entry of its lower-cased form, or none when the table lacks it. |
| KeywordSidebar.ItemCategory | content/triage-helper.js:292-300 | An item's bucket is its entry's category, or "unknown". |
| KeywordSidebar.UnknownCategory | content/triage-helper.js:298-303 | A keyword is filed as unknown exactly when the table has no entry for it. |
| KeywordSidebar.KnownCategories | data/keyword-data.js:259-268 | Every table category is configured, and none is "unknown". |
| KeywordSidebar.File | content/triage-helper.js:294-303 | Filing an item leaves a bucket for its category. |
| KeywordSidebar.GetFiled | content/triage-helper.js:294-303 | Filing appends the item to its own category's bucket and leaves the others. |
| KeywordSidebar.Items | content/triage-helper.js:288-290 | One item per keyword, in ticket order. |
| KeywordSidebar.InCategory | content/triage-helper.js:288-312 | The items of one category all have that category. |
| KeywordSidebar.Categories | content/triage-helper.js:288-312 | The category of each item, in order. |
| KeywordSidebar.CategoriesPrefix | content/triage-helper.js:288-312 | One more item extends the categories by its own. |
| KeywordSidebar.BucketContents | content/triage-helper.js:286-312 | Each bucket holds exactly its category's items in ticket order, and an unused category has no bucket. |
| KeywordSidebar.BucketKeys | content/triage-helper.js:286-312 | The buckets appear in the order their categories were first met. |
| KeywordSidebar.BucketsUnique | content/triage-helper.js:286-312 | No category has two buckets. |
| KeywordSidebar.StrLessOrder | content/triage-helper.js:315 | The order `sort()` uses on strings is a strict total order. |
| KeywordSidebar.Heading | content/triage-helper.js:316 | A configured category shows its name, and any other shows "Other". |
| KeywordSidebar.SectionsOf | content/triage-helper.js:315-346 | One section per key, in key order, with its heading and its bucket. |
| KeywordSidebar.KeywordSections | content/triage-helper.js:260-346 | No sidebar without the table or without keywords. Otherwise the sections are in strictly increasing category order, each holds exactly its category's keywords in ticket order, and every keyword's category has a section. |
| KeywordSidebar.SectionsMeet | content/triage-helper.js:315-346 | Sorted, filled, covering keys make sorted, filled, covering sections. |
| KeywordSidebar.IndexIn | content/triage-helper.js:315 | A member of a list is found at some position. |
| KeywordSidebar.SortedOrder | content/triage-helper.js:315 | The sorted bucket keys are every category once, strictly increasing, each with a non-empty bucket of its items. |
| KeywordSidebar.OneSectionEach | content/triage-helper.js:286-346 | Every keyword lands in exactly one section, the one of its category. |
| KeywordSidebar.SectionOfItem | content/triage-helper.js:286-346 | In filled sections an item sits in exactly the section of its category. |
| KeywordSidebar.InCategoryHas | content/triage-helper.js:288-312 | An item is in its category's list. |
| KeywordSidebar.KeywordsCovered | content/triage-helper.js:286-346 | Every keyword's category has a section. |
| KeywordSidebar.UnknownShown | content/triage-helper.js:303-310 | An unknown keyword shows as itself, not critical, with the usage "undefined". |
| KeywordSidebar.ShownItem | content/triage-helper.js:326-340 | A known keyword shows its entry's label, description, colour, critical flag and usage, and an unknown one the placeholder. |
| KeywordSidebar.CriticalOnlyKnown | content/triage-helper.js:329 | Only a table keyword whose entry is critical is marked critical. |
| MaintainerInfo.CardOf | content/trac-sidebar.js:322-337 | A card uses the profile entry when there is one, and otherwise the username, the built URL and no role. It carries the user's last comment. |
| MaintainerInfo.CardsOf | content/trac-sidebar.js:322-337 | One card per username, in order. |
| MaintainerInfo.ComponentMaintainerInfo | content/trac-sidebar.js:303-345 | None unless the tables are loaded, the cell exists and the trimmed component lists a maintainer. Otherwise one card per listed username, in table order. |
| MaintainerInfo.ListedCardsUseProfiles | data/maintainers-data.js:69-165 | With the tables as shipped, every card of the box comes from a profile, and its URL is the one the fallback would build. |
| MaintainerBox.TimeText | content/triage-helper.js:433-434 | The date's non-empty title, else its text, and "" without a date element. |
| MaintainerBox.CommentOf | content/triage-helper.js:431-440 | A found comment names the change's extracted username and its position. |
| MaintainerBox.Where | content/triage-helper.js:427-442 | The flagged positions, strictly increasing. |
| MaintainerBox.WhereComplete | content/triage-helper.js:427-442 | Every flagged position is listed. |
| MaintainerBox.Authored | content/triage-helper.js:428-432 | A change is flagged exactly when a maintainer wrote it. |
| MaintainerBox.MaintainerComments | content/triage-helper.js:423-445 | Each found comment is a maintainer's change, recorded as that change, and the comments are in page order. |
| MaintainerBox.MaintainerCommentsComplete | content/triage-helper.js:423-445 | No maintainer's change is missed. |
| MaintainerBox.CardOf | content/triage-helper.js:387-400 | A card shows the profile's name, URL and role, or the username, the built URL and no role. |
| MaintainerBox.CardLinksProfile | content/triage-helper.js:390 | Every card links to the profile URL built from its username, with or without a profile entry. |
| MaintainerBox.ListedFor | content/triage-helper.js:367-373 | The component's maintainers, present only with a cell, a non-blank component and a non-empty list. |
| MaintainerBox.FirstMaintainerComment | content/triage-helper.js:407-408 | As written, the box takes the first comment found, and there is none exactly when none was found. |
| MaintainerBox.LastMaintainerComment | content/triage-helper.js:405-416 | The comment the box should show: a found comment, and none exactly when none was found. |
| MaintainerBox.LastIsLatest | content/triage-helper.js:405-416 | The comment shown is on a maintainer's change no earlier than any other maintainer change. |
| MaintainerBox.MaintainerInfoBox | content/triage-helper.js:361-420 | No box without the table, a component or a listed maintainer. Otherwise the trimmed component, one card per maintainer, and `maintainerComments[0]` as the activity line. |
| MaintainerBox.FirstIsEarliest | content/triage-helper.js:407 | `maintainerComments[0]` is on a maintainer's change no later than any other maintainer change. |
| MaintainerBox.ActivityShownAsWritten | content/triage-helper.js:405-416 | As written, the activity line is present exactly when a listed maintainer wrote a change, and then names a maintainer on the EARLIEST such change. |
| MaintainerBox.CorrectedInfoBox | content/triage-helper.js:405-416 | The box its "Last maintainer comment" heading describes: the same component and cards, with the latest maintainer comment. |
| MaintainerBox.ActivityShown | content/triage-helper.js:405-416 | In the corrected box, the activity line is present exactly when a listed maintainer wrote a change. It names a maintainer, on the latest such change. |
| MaintainerBox.ActivityAsWritten | content/triage-helper.js:406-408 | The source's activity line is present exactly when a listed maintainer wrote a change, and then it is the earliest such change. |
| MaintainerBox.ActivityFacts | content/triage-helper.js:406-408 | `maintainerComments[0]` exists exactly when some change is by a listed maintainer, and no maintainer change comes before it. |
| MaintainerBox.FirstShownAsLast | content/triage-helper.js:406-414 | Two maintainers commenting in turn: as written the line names the first, although the second commented later. |
| MaintainerBox.PlainUsername | content/triage-helper.js:111 | A link without href whose text is a plain trimmed name yields that name. |

## Left out

- The DOM, CSS, element creation, event listeners, console logging and badge icons are left out. Each page element the logic reads is a field of `ChangeLog.Change`, `TriageHelper.Page` or `TriageHelper.CommentElement`.
- `chrome.storage`, `setTimeout` ordering, the status message and the `confirm` dialog are left out. Storage is an optional stored object, and the confirmation is a boolean parameter.
- The keys of JavaScript objects are kept in insertion order. Integer-like keys, which the language enumerates first, are not modelled. They do not occur in the static tables. In the keyword history, a keyword such as "2024" would be enumerated first by `Object.entries`, which changes only the order of validation issues.
- KeywordData.KeywordDefinitions: only the table's own keys are looked up. `KEYWORD_DATA[s]` is also truthy for a key every object inherits from `Object.prototype` ("constructor", "toString", "valueOf", "hasOwnProperty", "__proto__" and the like), where the model answers none.
- KeywordSidebar.ItemOfEntry: a keyword whose lower-casing is such an inherited key finds a truthy non-entry in the source, and the model treats it as absent.
- KeywordSidebar.ItemCategory: the source files such a keyword under the category `undefined`, because the inherited value has no `category`. The model files it under "unknown".
- KeywordSidebar.UnknownCategory: its if-and-only-if holds for own keys only. The source files an inherited key as known, under `undefined`.
- Validation.RedundantIssue: for a current keyword whose lower-casing is an inherited key, `rule2.pairs[k]` is a function, and `equivalent.toLowerCase()` throws a TypeError that ends the whole analysis. The model reports nothing for that keyword.
- Validation.Analyze: analyzeKeywordValidation is called only from the keyword-validation section, which content/trac-sidebar.js:2132-2206 keeps inside a comment. The Validation module therefore models code that the shipped sidebar never runs, and SidebarLayout.ValidationNeverRendered proves that the layout leaves the section out.
- TriageHelper.DetectRoleLabel: `roleMap[potentialRole]` also finds inherited keys. A name followed by the text "constructor" yields the `Object` function, which is no roleMap entry, and getUserType then returns its undefined `type`. The model answers none there, so "an entry of the six-item roleMap" holds for own keys only.
- Highlight.PaletteOf, Tallies.Bump, TriageHelper.ContributorKind, Highlight.RoleOfComment, RecentComments.RoleOf, Validation.AuthorityIssue, TriageHelper.ContributorLabel, ChangeLog.LabelOr, Maintainers.ComponentMaintainers, Maintainers.MaintainerProfiles, Roles.RankOr and SidebarLayout.RoleColor: these lookups see own keys only as well. A user, component, role or keyword named after an inherited key reads an inherited value in the source. So `wpTracContributorLabels[username]` and `contributorData[author]` give a user named "constructor" a truthy label that the model does not see. `rule3.keywords[keyword]` likewise finds a function for a history key "constructor": its `minRole` is undefined, so the required rank falls back to 4, and the source can report an issue where the model reports none. For a label named after an inherited key: `roleColors[role] || roleColors['default']` gives the `Object` function, whose colour fields are undefined, where Highlight.PaletteOf gives the grey default; `(roleStats[role] || 0) + 1` reads the inherited function and stores a string, where Tallies.Bump stores 1; and `typeMap[label] || 'contributor'` gives the `Object` function as the type, where TriageHelper.ContributorKind gives "contributor".
- Objects.Set: an assignment under the key "__proto__" replaces the object's prototype in the source and creates no own key. The model adds an own key "__proto__".
- Text.StrLessIrreflexive, Text.StrLessTotal, Text.StrLessTransitive, Text.StrLessAsymmetric, KeywordSidebar.StrLessOrder: the order they state, Text.StrLess, compares strings by code point, while `sort()` compares UTF-16 code units. The two orders differ only when a character beyond U+FFFF meets one between U+E000 and U+FFFF, and the category names are ASCII.
- Text.ToLower: `toLowerCase` is modelled on ASCII letters only. Non-ASCII case mappings are left out because no key or keyword of the tables uses them.
- Text.ReplaceFirst, Validation.FillPair, Validation.FillAuthority: `$` patterns in a `replace` replacement string are not interpreted. The substituted values (role names, keywords) hold no `$` in the shipped tables.
- The highlight palettes of `highlightContributors` and the role colours of `getRoleColor` and ROLE_COLORS are different tables. Each is modelled where it is used, and no agreement between them is claimed.
- Highlight.Style: an existing role badge keeps its old text even when the role changes. This is modelled as written, so Highlight.StyleIdempotent holds only for a repeated role.
- MilestoneHistory.CapturesTrimmed: the `.trim()` of a text capture is proved to be the identity, so the model leaves it out.
- Highlight.HighlightContributors: the styling and the counting of one loop are computed apart, because styling one comment does not depend on the others.
- KeywordHistory.NewestFirst and MilestoneHistory.NewestFirst: the code comments call the reversed lists "oldest first". Trac lists changes oldest first, so the reversed lists are newest first, and the model follows the code.
- Stored values are assumed to have the right types. A stored `customUsers` that is `null` would make the content script throw, and this is not modelled.
- TriageHelper.DeveloperLabelsNotKnown: a comment showing "Core Developer" or "Contributing Developer" gets a badge that repeats the visible label. This is modelled as written.
- KeywordSidebar.CriticalOnlyKnown: only the forward direction is stated (critical implies a critical table entry). The converse needs keyword names to be pairwise distinct, which is not proved here.
- MaintainerBox.MaintainerInfoBox: the `#ticket td.component` cell the box is inserted after is taken to be the same cell getTicketComponent reads, so its separate absence check is not modelled.
- The category icons of the keyword sidebar and the release schedule section (getNextMilestone, daysUntil, formatDate and WP_RELEASE_SCHEDULES, which depend on the current date) are left out. Only the days label's branches are modelled.
- `JSON.parse` of the contributor labels is an input: `labels: map<string, string>`.
- content/page-inject.js, popup/popup.js, docs/DEBUG-CONSOLE.js and content/modules/sidebar-manager.js are not part of this model. They are a page bridge, browser-API calls, console tooling, and UI construction with drag handling.
- Patterns.TracChangeAt, Patterns.TimeAt, Patterns.PhraseAt, Patterns.ParamValueAt, Patterns.QueryUserAt, Patterns.ReporterAt, Patterns.ProfileAt, Patterns.ActionAt, Patterns.OldKeywordAt, Patterns.ChangedFromAt and Patterns.SetToAt state the shape of what they capture. That the capture is the engine's unique answer is argued in their doc comments (maximal runs), not proved.

## Findings

| source | as written | input that shows it | evidently intended | confidence | as-written member | corrected member |
|---|---|---|---|---|---|---|
| content/triage-helper.js:406-414 | The "Last maintainer comment" line shows `maintainerComments[0]`. findMaintainerComments collects changes in page order, and Trac lists them oldest first, so this is the earliest maintainer comment. MaintainerBox.MaintainerInfoBox models the box this way, and MaintainerBox.ActivityShownAsWritten proves it names the earliest change. | Two changes, by maintainers alice then bob. The line names alice. | The last element, i.e. the latest maintainer comment. | not executed | MaintainerBox.FirstShownAsLast | MaintainerBox.CorrectedInfoBox |
