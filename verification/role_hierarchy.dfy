/**
 The contributor authority ranking (data/role-hierarchy.js): a rank per role
 name, where a lower number means more authority, and a badge colour per
 role.
 */
module Roles {
  /** ROLE_HIERARCHY. */
  const RoleHierarchy: map<string, nat> := map[
    "Project Lead" := 1,
    "Lead Developer" := 2,
    "Core Committer" := 3,
    "Emeritus Committer" := 3,
    "Component Maintainer" := 4,
    "Lead Tester" := 4,
    "Themes Committer" := 4,
    "Regular User" := 5
  ]

  /** ROLE_COLORS. */
  const RoleColors: map<string, string> := map[
    "Project Lead" := "#e91e63",
    "Lead Developer" := "#9c27b0",
    "Core Committer" := "#3f51b5",
    "Emeritus Committer" := "#ff9800",
    "Component Maintainer" := "#009688",
    "Lead Tester" := "#e91e63",
    "Themes Committer" := "#00bcd4",
    "Regular User" := "#757575"
  ]

  /** `ROLE_HIERARCHY[role] || fallback`: the stored rank, or the fallback when the role
      is missing or its rank is the falsy 0. */
  function RankOr(role: string, fallback: nat): (r: nat)
    ensures role in RoleHierarchy && RoleHierarchy[role] != 0 ==> r == RoleHierarchy[role]
    ensures role !in RoleHierarchy ==> r == fallback
  {
    if role in RoleHierarchy && RoleHierarchy[role] != 0 then RoleHierarchy[role] else fallback
  }

  /** Every rank lies in 1..5, so no stored rank is falsy and the fallback of `RankOr`
      only ever applies to a role missing from the table. */
  lemma RanksInRange()
    ensures forall r :: r in RoleHierarchy ==> 1 <= RoleHierarchy[r] <= 5
    ensures forall r, d :: RankOr(r, d) == if r in RoleHierarchy then RoleHierarchy[r] else d
  {
  }

  /** Lower means more authority: Project Lead, Lead Developer, Core Committer,
      Component Maintainer and Regular User in strictly decreasing authority. */
  lemma AuthorityOrder()
    ensures RoleHierarchy["Project Lead"] < RoleHierarchy["Lead Developer"]
    ensures RoleHierarchy["Lead Developer"] < RoleHierarchy["Core Committer"]
    ensures RoleHierarchy["Core Committer"] < RoleHierarchy["Component Maintainer"]
    ensures RoleHierarchy["Component Maintainer"] < RoleHierarchy["Regular User"]
  {
  }

  /** Emeritus committers rank with core committers; lead testers and themes committers
      rank with component maintainers. */
  lemma EqualRanks()
    ensures RoleHierarchy["Emeritus Committer"] == RoleHierarchy["Core Committer"]
    ensures RoleHierarchy["Lead Tester"] == RoleHierarchy["Component Maintainer"]
    ensures RoleHierarchy["Themes Committer"] == RoleHierarchy["Component Maintainer"]
  {
  }

  /** Both tables describe the same roles. */
  lemma SameRoles()
    ensures RoleHierarchy.Keys == RoleColors.Keys
  {
  }

  /** Regular User has the bottom rank, 5, which is also the fallback the sidebar uses for
      an unranked author, so an unknown role ranks like a regular user. */
  lemma RegularUserBottom()
    ensures RoleHierarchy["Regular User"] == 5
    ensures forall r :: r in RoleHierarchy ==> RoleHierarchy[r] <= RoleHierarchy["Regular User"]
    ensures forall r :: RankOr(r, 5) <= 5
  {
  }
}
