/**
 Keyword pairs that say the same thing, and keywords that only some roles
 are expected to add (data/keyword-equivalencies.js).
 */
module Equivalencies {
  import opened Text
  import opened KeywordData
  import opened Roles

  /** KEYWORD_EQUIVALENCIES: a keyword and the keyword it duplicates. */
  const KeywordEquivalencies: map<string, string> := map[
    "2nd-opinion" := "needs-review",
    "needs-test-info" := "reporter-feedback"
  ]

  /** The least role expected to add a keyword, and why. */
  datatype Restriction = Restriction(minRole: string, reason: string)

  /** AUTHORITY_RESTRICTED_KEYWORDS. */
  const AuthorityRestrictedKeywords: map<string, Restriction> := map[
    "dev-feedback" := Restriction("Component Maintainer",
      "Requesting developer feedback should be done by core team members"),
    "commit" := Restriction("Core Committer", "Only committers should mark tickets as ready to commit")
  ]

  /** There are exactly two pairs: 2nd-opinion duplicates needs-review, and
      needs-test-info duplicates reporter-feedback. */
  lemma TwoPairs()
    ensures KeywordEquivalencies.Keys == {"2nd-opinion", "needs-test-info"}
    ensures KeywordEquivalencies["2nd-opinion"] == "needs-review"
    ensures KeywordEquivalencies["needs-test-info"] == "reporter-feedback"
  {
  }

  /** No equivalent is itself a key, so the pairs never chain. */
  lemma NotChained()
    ensures forall k :: k in KeywordEquivalencies ==> KeywordEquivalencies[k] !in KeywordEquivalencies
  {
  }

  /** A keyword stored under `s` makes `s` a key of the glossary. */
  lemma Listed(k: Keyword, s: string)
    requires Name(k) == s
    ensures KeywordDefinitions(s).Some?
  {
  }

  /** Every key and value of the pairs, and every restricted keyword, is in the keyword
      glossary. */
  lemma AllDefined()
    ensures forall k :: k in KeywordEquivalencies ==>
      KeywordDefinitions(k).Some? && KeywordDefinitions(KeywordEquivalencies[k]).Some?
    ensures forall k :: k in AuthorityRestrictedKeywords ==> KeywordDefinitions(k).Some?
  {
    forall k | k in KeywordEquivalencies
      ensures KeywordDefinitions(k).Some? && KeywordDefinitions(KeywordEquivalencies[k]).Some?
    {
      PairDefined(k);
    }
    forall k | k in AuthorityRestrictedKeywords
      ensures KeywordDefinitions(k).Some?
    {
      RestrictedDefined(k);
    }
  }

  lemma PairDefined(k: string)
    requires k in KeywordEquivalencies
    ensures KeywordDefinitions(k).Some? && KeywordDefinitions(KeywordEquivalencies[k]).Some?
  {
    var v := KeywordEquivalencies[k];
    var (a, b) := if k == "2nd-opinion" then (SecondOpinion, NeedsReview) else (NeedsTestInfo, ReporterFeedback);
    assert Name(a) == k && Name(b) == v;
    Listed(a, k);
    Listed(b, v);
  }

  lemma RestrictedDefined(k: string)
    requires k in AuthorityRestrictedKeywords
    ensures KeywordDefinitions(k).Some?
  {
    if k == "dev-feedback" {
      Listed(DevFeedback, k);
    } else {
      Listed(Commit, k);
    }
  }

  /** The restricted keywords are dev-feedback, from Component Maintainer up, and commit,
      from Core Committer up; both roles are ranked. */
  lemma Restrictions()
    ensures AuthorityRestrictedKeywords.Keys == {"dev-feedback", "commit"}
    ensures AuthorityRestrictedKeywords["dev-feedback"].minRole == "Component Maintainer"
    ensures AuthorityRestrictedKeywords["commit"].minRole == "Core Committer"
    ensures forall k :: k in AuthorityRestrictedKeywords ==> AuthorityRestrictedKeywords[k].minRole in RoleHierarchy
  {
  }
}
