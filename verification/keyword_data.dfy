/**
 The keyword glossary the sidebar shows next to a ticket's keywords
 (data/keyword-data.js): one entry per Trac workflow keyword, with its
 category, display label, description, usage note, colour, a flag for the
 keywords that block progress and, for two of them, aliases; plus the
 category table.

 The table is held column by column, one function per field over an
 enumeration of the keywords, and a lookup by name plays the part of
 indexing the object with a string.
 */
module KeywordData {
  import opened Text
  import opened Tables

  /** The keywords of the table, one constructor per key. */
  datatype Keyword =
      HasPatch
    | NeedsPatch
    | NeedsRefresh
    | ChangesRequested
    | NeedsTesting
    | HasTestInfo
    | NeedsTestInfo
    | HasUnitTests
    | NeedsUnitTests
    | ReporterFeedback
    | DevFeedback
    | SecondOpinion
    | NeedsReview
    | NeedsDesign
    | NeedsDesignFeedback
    | NeedsDocs
    | NeedsUserDocs
    | NeedsCodex
    | NeedsDevNote
    | HasDevNote
    | AddToFieldGuide
    | NeedsPrivacyReview
    | HasPrivacyReview
    | NeedsCopyReview
    | HasCopyReview
    | NeedsScreenshots
    | HasScreenshots
    | Close
    | Commit

  /** The number of keywords in the table. */
  const KeywordCount: nat := 29

  /** A keyword's position in the table. */
  function Ordinal(k: Keyword): nat {
    match k
    case HasPatch => 0
    case NeedsPatch => 1
    case NeedsRefresh => 2
    case ChangesRequested => 3
    case NeedsTesting => 4
    case HasTestInfo => 5
    case NeedsTestInfo => 6
    case HasUnitTests => 7
    case NeedsUnitTests => 8
    case ReporterFeedback => 9
    case DevFeedback => 10
    case SecondOpinion => 11
    case NeedsReview => 12
    case NeedsDesign => 13
    case NeedsDesignFeedback => 14
    case NeedsDocs => 15
    case NeedsUserDocs => 16
    case NeedsCodex => 17
    case NeedsDevNote => 18
    case HasDevNote => 19
    case AddToFieldGuide => 20
    case NeedsPrivacyReview => 21
    case HasPrivacyReview => 22
    case NeedsCopyReview => 23
    case HasCopyReview => 24
    case NeedsScreenshots => 25
    case HasScreenshots => 26
    case Close => 27
    case Commit => 28
  }

  /** The keyword at a position of the table, if the position is in range. */
  function KeywordAt(i: nat): Option<Keyword> {
    match i
    case 0 => Some(HasPatch)
    case 1 => Some(NeedsPatch)
    case 2 => Some(NeedsRefresh)
    case 3 => Some(ChangesRequested)
    case 4 => Some(NeedsTesting)
    case 5 => Some(HasTestInfo)
    case 6 => Some(NeedsTestInfo)
    case 7 => Some(HasUnitTests)
    case 8 => Some(NeedsUnitTests)
    case 9 => Some(ReporterFeedback)
    case 10 => Some(DevFeedback)
    case 11 => Some(SecondOpinion)
    case 12 => Some(NeedsReview)
    case 13 => Some(NeedsDesign)
    case 14 => Some(NeedsDesignFeedback)
    case 15 => Some(NeedsDocs)
    case 16 => Some(NeedsUserDocs)
    case 17 => Some(NeedsCodex)
    case 18 => Some(NeedsDevNote)
    case 19 => Some(HasDevNote)
    case 20 => Some(AddToFieldGuide)
    case 21 => Some(NeedsPrivacyReview)
    case 22 => Some(HasPrivacyReview)
    case 23 => Some(NeedsCopyReview)
    case 24 => Some(HasCopyReview)
    case 25 => Some(NeedsScreenshots)
    case 26 => Some(HasScreenshots)
    case 27 => Some(Close)
    case 28 => Some(Commit)
    case _ => None
  }

  /** The key the keyword is stored under. */
  function Name(k: Keyword): string {
    match k
    case HasPatch => "has-patch"
    case NeedsPatch => "needs-patch"
    case NeedsRefresh => "needs-refresh"
    case ChangesRequested => "changes-requested"
    case NeedsTesting => "needs-testing"
    case HasTestInfo => "has-test-info"
    case NeedsTestInfo => "needs-test-info"
    case HasUnitTests => "has-unit-tests"
    case NeedsUnitTests => "needs-unit-tests"
    case ReporterFeedback => "reporter-feedback"
    case DevFeedback => "dev-feedback"
    case SecondOpinion => "2nd-opinion"
    case NeedsReview => "needs-review"
    case NeedsDesign => "needs-design"
    case NeedsDesignFeedback => "needs-design-feedback"
    case NeedsDocs => "needs-docs"
    case NeedsUserDocs => "needs-user-docs"
    case NeedsCodex => "needs-codex"
    case NeedsDevNote => "needs-dev-note"
    case HasDevNote => "has-dev-note"
    case AddToFieldGuide => "add-to-field-guide"
    case NeedsPrivacyReview => "needs-privacy-review"
    case HasPrivacyReview => "has-privacy-review"
    case NeedsCopyReview => "needs-copy-review"
    case HasCopyReview => "has-copy-review"
    case NeedsScreenshots => "needs-screenshots"
    case HasScreenshots => "has-screenshots"
    case Close => "close"
    case Commit => "commit"
  }

  /** The key of the keyword's category in the category table. */
  function Category(k: Keyword): string {
    match k
    case HasPatch => "patch"
    case NeedsPatch => "patch"
    case NeedsRefresh => "patch"
    case ChangesRequested => "patch"
    case NeedsTesting => "testing"
    case HasTestInfo => "testing"
    case NeedsTestInfo => "testing"
    case HasUnitTests => "testing"
    case NeedsUnitTests => "testing"
    case ReporterFeedback => "feedback"
    case DevFeedback => "feedback"
    case SecondOpinion => "feedback"
    case NeedsReview => "feedback"
    case NeedsDesign => "design"
    case NeedsDesignFeedback => "design"
    case NeedsDocs => "docs"
    case NeedsUserDocs => "docs"
    case NeedsCodex => "docs"
    case NeedsDevNote => "docs"
    case HasDevNote => "docs"
    case AddToFieldGuide => "docs"
    case NeedsPrivacyReview => "review"
    case HasPrivacyReview => "review"
    case NeedsCopyReview => "review"
    case HasCopyReview => "review"
    case NeedsScreenshots => "screenshots"
    case HasScreenshots => "screenshots"
    case Close => "status"
    case Commit => "status"
  }

  /** The label shown for the keyword. */
  function DisplayName(k: Keyword): string {
    match k
    case HasPatch => "Has Patch"
    case NeedsPatch => "Needs Patch"
    case NeedsRefresh => "Needs Refresh"
    case ChangesRequested => "Changes Requested"
    case NeedsTesting => "Needs Testing"
    case HasTestInfo => "Has Test Info"
    case NeedsTestInfo => "Needs Test Info"
    case HasUnitTests => "Has Unit Tests"
    case NeedsUnitTests => "Needs Unit Tests"
    case ReporterFeedback => "Reporter Feedback"
    case DevFeedback => "Dev Feedback"
    case SecondOpinion => "2nd Opinion"
    case NeedsReview => "Needs Review"
    case NeedsDesign => "Needs Design"
    case NeedsDesignFeedback => "Needs Design Feedback"
    case NeedsDocs => "Needs Docs"
    case NeedsUserDocs => "Needs User Docs"
    case NeedsCodex => "Needs Codex"
    case NeedsDevNote => "Needs Dev Note"
    case HasDevNote => "Has Dev Note"
    case AddToFieldGuide => "Add to Field Guide"
    case NeedsPrivacyReview => "Needs Privacy Review"
    case HasPrivacyReview => "Has Privacy Review"
    case NeedsCopyReview => "Needs Copy Review"
    case HasCopyReview => "Has Copy Review"
    case NeedsScreenshots => "Needs Screenshots"
    case HasScreenshots => "Has Screenshots"
    case Close => "Close"
    case Commit => "Commit"
  }

  /** What the keyword means. */
  function Description(k: Keyword): string {
    match k
    case HasPatch => "A patch file has been attached to the ticket"
    case NeedsPatch => "The ticket has been confirmed as a bug/issue and requires a patch to fix it"
    case NeedsRefresh => "The existing patch doesn't apply cleanly against the current codebase"
    case ChangesRequested => "Feedback has been provided and the attached patch needs to be updated"
    case NeedsTesting => "The patch requires testing by the community to ensure it works and doesn't introduce bugs"
    case HasTestInfo => "The ticket contains adequate testing instructions or step-by-step information"
    case NeedsTestInfo => "The ticket lacks sufficient testing instructions or information needed to properly test the issue/patch"
    case HasUnitTests => "Unit tests have been provided for the ticket"
    case NeedsUnitTests => "Unit tests are needed to verify and test the patch"
    case ReporterFeedback => "A response is needed from the original ticket reporter"
    case DevFeedback => "A response is needed from a core developer or trusted member of the development community"
    case SecondOpinion => "A second opinion is needed from other contributors before taking action"
    case NeedsReview => "The patch needs review from experienced contributors"
    case NeedsDesign => "A designer should create a prototype/mockup of how changes should look/behave BEFORE code is written"
    case NeedsDesignFeedback => "A designer should review and give feedback on the PROPOSED changes"
    case NeedsDocs => "Inline code documentation (PHPDoc/DocBlocks) is needed for developer reference"
    case NeedsUserDocs => "End-user documentation in the Codex/HelpHub needs updating or expanding"
    case NeedsCodex => "End-user documentation in the Codex/HelpHub needs updating or expanding"
    case NeedsDevNote => "A developer note should be written for the make/core blog"
    case HasDevNote => "A developer note has been published for this ticket"
    case AddToFieldGuide => "This change should be mentioned in the WordPress version Field Guide"
    case NeedsPrivacyReview => "The Privacy team needs to review the privacy implications of the suggested changes"
    case HasPrivacyReview => "The Privacy team has reviewed and provided input on the privacy implications"
    case NeedsCopyReview => "Input is needed from a copywriter regarding the suggested verbiage/text changes"
    case HasCopyReview => "A copywriter has reviewed and approved the text changes"
    case NeedsScreenshots => "Screenshots are needed to document UI changes"
    case HasScreenshots => "Screenshots have been provided for the UI changes"
    case Close => "The ticket is a candidate for closure with a disposition other than 'fixed'"
    case Commit => "The patch is ready to be committed to core"
  }

  /** When the keyword is applied. */
  function Usage(k: Keyword): string {
    match k
    case HasPatch => "After uploading a patch to fix the issue. Add a comment with [attachment:filename] to link to your patch."
    case NeedsPatch => "When a reproducible bug needs someone to write code to fix it (and unit tests, if applicable)"
    case NeedsRefresh => "When testing a patch and it fails to apply due to conflicts with recent code changes."
    case ChangesRequested => "When reviewers have provided specific feedback that requires modifications to the existing patch"
    case NeedsTesting => "When a patch is ready but needs community verification before it can be committed"
    case HasTestInfo => "Manually added during triage when step-by-step instructions (written, video, or GIF) are present"
    case NeedsTestInfo => "When the ticket needs more detailed steps to reproduce or test the issue"
    case HasUnitTests => "After unit tests are written and attached to verify the patch"
    case NeedsUnitTests => "When tests are particularly needed for a ticket to proceed, especially for core functionality changes"
    case ReporterFeedback => "When you can't reproduce the issue and need more information from the person experiencing the problem"
    case DevFeedback => "When you need technical input from experienced developers, or when double sign-off is required"
    case SecondOpinion => "When you're uncertain about the approach or resolution and want additional input from the community"
    case NeedsReview => "When a patch is ready for technical review"
    case NeedsDesign => "When requesting new design work or prototypes before implementation begins"
    case NeedsDesignFeedback => "When design already exists or is proposed, and you need a designer's review or opinion"
    case NeedsDocs => "For placeholder tickets for individual files, or patches with new functions that need documenting"
    case NeedsUserDocs => "When changes affect how users interact with WordPress and need documentation updates"
    case NeedsCodex => "When changes affect how users interact with WordPress and need documentation updates"
    case NeedsDevNote => "For significant changes including new functionality, large refactors, or breaking changes"
    case HasDevNote => "Replaces needs-dev-note once the note is published; include a link to the note"
    case AddToFieldGuide => "For changes that don't warrant a full dev note but should be included in 'But Wait, There Is More!'"
    case NeedsPrivacyReview => "When changes involve user data collection, storage, or processing that may have privacy implications"
    case HasPrivacyReview => "After the core privacy team has completed their review"
    case NeedsCopyReview => "When the ticket involves user-facing text that should be reviewed for clarity, tone, or accuracy"
    case HasCopyReview => "After copy review is complete and any necessary changes have been made"
    case NeedsScreenshots => "For patches and commits that change the user interface. Provide screenshots for desktop and mobile."
    case HasScreenshots => "After uploading adequate screenshots showing the changes"
    case Close => "When you believe the ticket should be closed but want community agreement first"
    case Commit => "After all reviews and tests have passed"
  }

  /** The badge colour. */
  function Color(k: Keyword): string {
    match k
    case HasPatch => "#4CAF50"
    case NeedsPatch => "#4CAF50"
    case NeedsRefresh => "#4CAF50"
    case ChangesRequested => "#4CAF50"
    case NeedsTesting => "#2196F3"
    case HasTestInfo => "#2196F3"
    case NeedsTestInfo => "#2196F3"
    case HasUnitTests => "#2196F3"
    case NeedsUnitTests => "#2196F3"
    case ReporterFeedback => "#FF9800"
    case DevFeedback => "#FF9800"
    case SecondOpinion => "#FF9800"
    case NeedsReview => "#FF9800"
    case NeedsDesign => "#9C27B0"
    case NeedsDesignFeedback => "#9C27B0"
    case NeedsDocs => "#607D8B"
    case NeedsUserDocs => "#607D8B"
    case NeedsCodex => "#607D8B"
    case NeedsDevNote => "#607D8B"
    case HasDevNote => "#607D8B"
    case AddToFieldGuide => "#607D8B"
    case NeedsPrivacyReview => "#795548"
    case HasPrivacyReview => "#795548"
    case NeedsCopyReview => "#795548"
    case HasCopyReview => "#795548"
    case NeedsScreenshots => "#00BCD4"
    case HasScreenshots => "#00BCD4"
    case Close => "#F44336"
    case Commit => "#4CAF50"
  }

  /** Whether the keyword marks a ticket as blocked on action. */
  function Critical(k: Keyword): bool {
    match k
    case HasPatch => false
    case NeedsPatch => true
    case NeedsRefresh => false
    case ChangesRequested => false
    case NeedsTesting => true
    case HasTestInfo => false
    case NeedsTestInfo => false
    case HasUnitTests => false
    case NeedsUnitTests => false
    case ReporterFeedback => false
    case DevFeedback => true
    case SecondOpinion => false
    case NeedsReview => false
    case NeedsDesign => false
    case NeedsDesignFeedback => false
    case NeedsDocs => false
    case NeedsUserDocs => false
    case NeedsCodex => false
    case NeedsDevNote => false
    case HasDevNote => false
    case AddToFieldGuide => false
    case NeedsPrivacyReview => false
    case HasPrivacyReview => false
    case NeedsCopyReview => false
    case HasCopyReview => false
    case NeedsScreenshots => false
    case HasScreenshots => false
    case Close => false
    case Commit => false
  }

  /** Other keys that name the same keyword. */
  function Aliases(k: Keyword): seq<string> {
    match k
    case HasPatch => []
    case NeedsPatch => []
    case NeedsRefresh => []
    case ChangesRequested => []
    case NeedsTesting => []
    case HasTestInfo => []
    case NeedsTestInfo => []
    case HasUnitTests => []
    case NeedsUnitTests => []
    case ReporterFeedback => []
    case DevFeedback => []
    case SecondOpinion => []
    case NeedsReview => []
    case NeedsDesign => []
    case NeedsDesignFeedback => []
    case NeedsDocs => []
    case NeedsUserDocs => ["needs-codex"]
    case NeedsCodex => ["needs-user-docs"]
    case NeedsDevNote => []
    case HasDevNote => []
    case AddToFieldGuide => []
    case NeedsPrivacyReview => []
    case HasPrivacyReview => []
    case NeedsCopyReview => []
    case HasCopyReview => []
    case NeedsScreenshots => []
    case HasScreenshots => []
    case Close => []
    case Commit => []
  }

  /** A whole entry of the table, as the content scripts read it. */
  datatype KeywordInfo = KeywordInfo(
    category: string,
    displayName: string,
    description: string,
    usage: string,
    color: string,
    critical: bool,
    aliases: seq<string>)

  function Entry(k: Keyword): (e: KeywordInfo)
    ensures e.category == Category(k) && e.critical == Critical(k) && e.aliases == Aliases(k)
  {
    KeywordInfo(Category(k), DisplayName(k), Description(k), Usage(k), Color(k), Critical(k), Aliases(k))
  }

  /** Indexing the table with a string key: the keyword stored under it, or none. */
  function Lookup(s: string): (r: Option<Keyword>)
    ensures r.Some? ==> Name(r.value) == s
    ensures r.None? <==> forall k :: Name(k) != s
  {
    forall k
      ensures Ordinal(k) < KeywordCount && KeywordAt(Ordinal(k)) == Some(k)
    {
      OrdinalInRange(k);
    }
    FindKeyComplete(KeywordAt, Name, Ordinal, KeywordCount, s);
    FindKey(KeywordAt, Name, KeywordCount, 0, s)
  }

  /** KEYWORD_DEFINITIONS[s], and KEYWORD_DATA[s], which names the same table. */
  function KeywordDefinitions(s: string): (r: Option<KeywordInfo>)
    ensures r.Some? ==> exists k :: Name(k) == s && r.value == Entry(k)
    ensures r.None? ==> forall k :: Name(k) != s
  {
    match Lookup(s)
    case Some(k) => Some(Entry(k))
    case None => None
  }

  /** A category's display name and description (its icon is presentation only). */
  datatype CategoryInfo = CategoryInfo(name: string, description: string)

  const CategoryConfig: map<string, CategoryInfo> := map[
    "patch" := CategoryInfo("Patch-Related", "Keywords related to patch files and code changes"),
    "testing" := CategoryInfo("Testing", "Keywords related to testing patches and functionality"),
    "feedback" := CategoryInfo("Feedback", "Keywords indicating feedback is needed from specific people or groups"),
    "design" := CategoryInfo("Design", "Keywords related to UI/UX design work"),
    "docs" := CategoryInfo("Documentation", "Keywords related to documentation needs"),
    "review" := CategoryInfo("Review", "Keywords indicating specialized review is needed"),
    "screenshots" := CategoryInfo("Screenshots", "Keywords related to visual documentation of changes"),
    "status" := CategoryInfo("Status", "Keywords indicating the ticket status or next action")
  ]

  /** Every keyword sits at its own position of the table. */
  lemma OrdinalInRange(k: Keyword)
    ensures Ordinal(k) < KeywordCount && KeywordAt(Ordinal(k)) == Some(k)
  {
  }

  /** Every keyword's category has an entry in the category table. */
  lemma CategoriesConfigured()
    ensures forall k :: Category(k) in CategoryConfig
  {
  }

  /** Every key is lower case. */
  lemma KeysLowerCase()
    ensures forall k :: IsLowerCase(Name(k))
  {
    LowerCaseNamesA();
    LowerCaseNamesB();
    LowerCaseNamesC();
    LowerCaseNamesD();
    LowerCaseNamesE();
    LowerCaseNamesF();
  }

  /** Looking up the lower-cased form of any key finds its entry, as the keyword list of
      the sidebar does. */
  lemma LowerCasedLookupFinds()
    ensures forall k :: Lookup(ToLower(Name(k))).Some?
  {
    KeysLowerCase();
    forall k
      ensures Lookup(ToLower(Name(k))).Some?
    {
      ToLowerOfLower(Name(k));
    }
  }

  // The keys checked five at a time, which keeps each obligation small.
  lemma LowerCaseNamesA()
    ensures IsLowerCase("has-patch")
    ensures IsLowerCase("needs-patch")
    ensures IsLowerCase("needs-refresh")
    ensures IsLowerCase("changes-requested")
    ensures IsLowerCase("needs-testing")
  {
  }

  lemma LowerCaseNamesB()
    ensures IsLowerCase("has-test-info")
    ensures IsLowerCase("needs-test-info")
    ensures IsLowerCase("has-unit-tests")
    ensures IsLowerCase("needs-unit-tests")
    ensures IsLowerCase("reporter-feedback")
  {
  }

  lemma LowerCaseNamesC()
    ensures IsLowerCase("dev-feedback")
    ensures IsLowerCase("2nd-opinion")
    ensures IsLowerCase("needs-review")
    ensures IsLowerCase("needs-design")
    ensures IsLowerCase("needs-design-feedback")
  {
  }

  lemma LowerCaseNamesD()
    ensures IsLowerCase("needs-docs")
    ensures IsLowerCase("needs-user-docs")
    ensures IsLowerCase("needs-codex")
    ensures IsLowerCase("needs-dev-note")
    ensures IsLowerCase("has-dev-note")
  {
  }

  lemma LowerCaseNamesE()
    ensures IsLowerCase("add-to-field-guide")
    ensures IsLowerCase("needs-privacy-review")
    ensures IsLowerCase("has-privacy-review")
    ensures IsLowerCase("needs-copy-review")
    ensures IsLowerCase("has-copy-review")
  {
  }

  lemma LowerCaseNamesF()
    ensures IsLowerCase("needs-screenshots")
    ensures IsLowerCase("has-screenshots")
    ensures IsLowerCase("close")
    ensures IsLowerCase("commit")
  {
  }

  /** Only needs-user-docs and needs-codex carry aliases; each names the other, and the two
      share category, description and usage. */
  lemma AliasesSymmetric()
    ensures Aliases(NeedsUserDocs) == [Name(NeedsCodex)]
    ensures Aliases(NeedsCodex) == [Name(NeedsUserDocs)]
    ensures forall k :: k != NeedsUserDocs && k != NeedsCodex ==> Aliases(k) == []
    ensures Category(NeedsUserDocs) == Category(NeedsCodex)
    ensures Description(NeedsUserDocs) == Description(NeedsCodex)
    ensures Usage(NeedsUserDocs) == Usage(NeedsCodex)
  {
  }

  /** Exactly needs-patch, needs-testing and dev-feedback are critical. */
  lemma CriticalKeywords()
    ensures forall k :: Critical(k) <==> k == NeedsPatch || k == NeedsTesting || k == DevFeedback
    ensures Name(NeedsPatch) == "needs-patch" && Name(NeedsTesting) == "needs-testing"
    ensures Name(DevFeedback) == "dev-feedback"
  {
  }
}
