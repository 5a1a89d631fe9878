/**
 The role counter of highlightContributors in content/trac-sidebar.js: an
 object from role to count, bumped once per highlighted comment, so that
 its keys follow the order in which the roles were first seen.
 */
module Tallies {
  import opened Text
  import opened Objects

  /** `roleStats[role] = (roleStats[role] || 0) + 1`: an existing count goes up in
      place, a new role is appended with count 1. */
  function Bump(stats: Object<nat>, role: string): (r: Object<nat>)
    ensures |r| == |stats| || |r| == |stats| + 1
  {
    match KeyIndex(stats, role)
    case Some(i) => stats[i := (role, stats[i].1 + 1)]
    case None => stats + [(role, 1)]
  }

  /** The counts of a list of roles, bumped in list order. */
  function Tally(roles: seq<string>): (r: Object<nat>)
    decreases |roles|
  {
    if |roles| == 0 then [] else Bump(Tally(roles[..|roles| - 1]), roles[|roles| - 1])
  }

  /** The distinct elements of a list, in order of first appearance. */
  function Distinct(xs: seq<string>): (r: seq<string>)
    ensures |r| <= |xs|
    decreases |xs|
  {
    if |xs| == 0 then []
    else
      var d := Distinct(xs[..|xs| - 1]);
      var x := xs[|xs| - 1];
      if x in d then d else d + [x]
  }

  /** How often `k` occurs in `xs`. */
  function Occurrences(xs: seq<string>, k: string): (n: nat)
    ensures n <= |xs|
  {
    if |xs| == 0 then 0
    else Occurrences(xs[..|xs| - 1], k) + (if xs[|xs| - 1] == k then 1 else 0)
  }
}

/** What the role counter computes: the bumped tally is the reference count. */
module TallyLaws {
  import opened Text
  import opened Objects
  import opened Tallies

  /** Bumping is the object assignment of one more than the current count. */
  lemma BumpIsSet(stats: Object<nat>, role: string)
    ensures Bump(stats, role) == Set(stats, role, match Get(stats, role) case Some(n) => n + 1 case None => 1)
  {
  }

  lemma TallyStep(roles: seq<string>, x: string)
    ensures Tally(roles + [x]) == Bump(Tally(roles), x)
  {
    assert (roles + [x])[..|roles|] == roles;
  }

  lemma TallyPrefix(roles: seq<string>, i: nat)
    requires i < |roles|
    ensures Tally(roles[..i + 1]) == Bump(Tally(roles[..i]), roles[i])
  {
    assert roles[..i + 1][..i] == roles[..i];
  }

  lemma DistinctStep(xs: seq<string>, x: string)
    ensures Distinct(xs + [x]) == if x in Distinct(xs) then Distinct(xs) else Distinct(xs) + [x]
  {
    assert (xs + [x])[..|xs|] == xs;
  }

  lemma OccurrencesStep(xs: seq<string>, x: string, k: string)
    ensures Occurrences(xs + [x], k) == Occurrences(xs, k) + (if x == k then 1 else 0)
  {
    assert (xs + [x])[..|xs|] == xs;
  }

  /** The distinct elements are the elements. */
  lemma {:induction false} DistinctMembers(xs: seq<string>, y: string)
    ensures y in Distinct(xs) <==> y in xs
    decreases |xs|
  {
    if |xs| > 0 {
      var init, x := xs[..|xs| - 1], xs[|xs| - 1];
      assert xs == init + [x];
      DistinctMembers(init, y);
      DistinctStep(init, x);
    }
  }

  /** A value occurs a positive number of times exactly when it is in the list. */
  lemma {:induction false} OccurrencesPositive(xs: seq<string>, k: string)
    ensures Occurrences(xs, k) > 0 <==> k in xs
    decreases |xs|
  {
    if |xs| > 0 {
      var init, x := xs[..|xs| - 1], xs[|xs| - 1];
      assert xs == init + [x];
      OccurrencesPositive(init, k);
    }
  }

  /** Bumping a role adds one to its count, starting from zero. */
  lemma GetBumped(stats: Object<nat>, x: string)
    ensures Get(Bump(stats, x), x) == Some(if Get(stats, x).Some? then Get(stats, x).value + 1 else 1)
  {
    BumpIsSet(stats, x);
  }

  /** Bumping a role leaves the other counts alone. */
  lemma GetOther(stats: Object<nat>, x: string, k: string)
    requires k != x
    ensures Get(Bump(stats, x), k) == Get(stats, k)
  {
    BumpIsSet(stats, x);
  }

  lemma {:induction false} TallyCount(roles: seq<string>, k: string)
    ensures Get(Tally(roles), k) == if Occurrences(roles, k) > 0 then Some(Occurrences(roles, k)) else None
    decreases |roles|
  {
    if |roles| > 0 {
      var init, x := roles[..|roles| - 1], roles[|roles| - 1];
      TallyCount(init, k);
      if k == x {
        GetBumped(Tally(init), x);
      } else {
        GetOther(Tally(init), x, k);
      }
    }
  }

  /** A role's entry in the tally is its number of occurrences; a role that does not
      occur has none. */
  lemma TallyGet(roles: seq<string>, k: string)
    ensures Get(Tally(roles), k) == if k in roles then Some(Occurrences(roles, k)) else None
  {
    TallyCount(roles, k);
    OccurrencesPositive(roles, k);
  }

  /** The tally's keys are the distinct roles, in order of first appearance. */
  lemma {:induction false} TallyKeys(roles: seq<string>)
    ensures Keys(Tally(roles)) == Distinct(roles)
    decreases |roles|
  {
    if |roles| > 0 {
      var init, x := roles[..|roles| - 1], roles[|roles| - 1];
      assert roles == init + [x];
      TallyKeys(init);
      TallyStep(init, x);
      BumpIsSet(Tally(init), x);
      DistinctStep(init, x);
    }
  }

  /** No role is counted under two keys. */
  lemma {:induction false} TallyUnique(roles: seq<string>)
    ensures UniqueKeys(Tally(roles))
    decreases |roles|
  {
    if |roles| > 0 {
      var init, x := roles[..|roles| - 1], roles[|roles| - 1];
      assert roles == init + [x];
      TallyUnique(init);
      TallyStep(init, x);
      BumpIsSet(Tally(init), x);
    }
  }
}
