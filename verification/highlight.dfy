/**
 highlightContributors of content/trac-sidebar.js, and its older copy in
 content/test-simple.js: every comment whose trimmed author has a
 contributor label gets a coloured border, Trac's own label badge is hidden
 and a role badge of the extension's is shown (created once, restyled on
 every pass). The newer copy also marks comments synced from GitHub and
 counts how often each role appears, for the authority legend.

 A comment's rendering is modelled by the state of its author container
 (`Styled`); the pass is a function of the changes and their states.
 */
module Highlight {
  import opened Text
  import opened Objects
  import opened ChangeLog
  import opened Tallies
  import opened TallyLaws

  /** Border, background and badge colour of a highlighted comment. */
  datatype Palette = Palette(border: string, bg: string, badge: string)

  const DefaultPalette: Palette := Palette("#607D8B", "#ECEFF1", "#607D8B")

  /** `roleColors[role] || roleColors['default']`: six roles have their own colours,
      every other role is grey. */
  function PaletteOf(role: string): (r: Palette)
    ensures r.border == r.badge && r.bg != r.badge
    ensures r != DefaultPalette <==> role in {"Project Lead", "Lead Developer", "Core Committer",
                                             "Emeritus Committer", "Lead Tester", "Themes Committer"}
  {
    if role == "Project Lead" then Palette("#9C27B0", "#F3E5F5", "#9C27B0")
    else if role == "Lead Developer" then Palette("#2196F3", "#E3F2FD", "#2196F3")
    else if role == "Core Committer" then Palette("#4CAF50", "#E8F5E9", "#4CAF50")
    else if role == "Emeritus Committer" then Palette("#FF9800", "#FFF3E0", "#FF9800")
    else if role == "Lead Tester" then Palette("#E91E63", "#FCE4EC", "#E91E63")
    else if role == "Themes Committer" then Palette("#00BCD4", "#E0F7FA", "#00BCD4")
    else DefaultPalette
  }

  /** Trac's own `.contributor-label` badge in the author container. */
  datatype TracLabel = NoTracLabel | Shown | Hidden

  /** The extension's `.wpt-role-badge`: its text and its background colour. */
  datatype RoleBadge = RoleBadge(text: string, color: string)

  /** What the pass changes about one comment: the comment's highlight, Trac's label,
      the role badge and whether the "GitHub PR" badge is present. */
  datatype Styled = Styled(
    highlight: Option<Palette>,
    tracLabel: TracLabel,
    roleBadge: Option<RoleBadge>,
    githubBadge: bool)

  /** The role a comment is highlighted with: the label of its trimmed `.trac-author`
      text, when it has that element and the label is not empty. */
  function RoleOfComment(c: Change, labels: map<string, string>): (r: Option<string>)
    ensures r.Some? <==> c.tracAuthor.Some? && HasLabel(labels, Trim(c.tracAuthor.value.text))
    ensures r.Some? ==> r.value != "" && r.value == labels[Trim(c.tracAuthor.value.text)]
  {
    if c.tracAuthor.Some? && HasLabel(labels, Trim(c.tracAuthor.value.text)) then
      Some(labels[Trim(c.tracAuthor.value.text)])
    else None
  }

  /** A comment synced from GitHub: its header carries the chat-bot or prbot class. */
  predicate FromGitHub(c: Change) {
    c.header.Some? && c.header.value.fromBot
  }

  /** The styling of one labelled comment; `github` says whether the synced-comment
      badge is to be added. An existing role badge keeps its text and is recoloured. */
  function Style(s: Styled, role: string, github: bool): (r: Styled)
    ensures r.highlight == Some(PaletteOf(role))
    ensures r.tracLabel == (if s.tracLabel == Shown then Hidden else s.tracLabel)
    ensures r.tracLabel != Shown
    ensures r.roleBadge.Some? && r.roleBadge.value.color == PaletteOf(role).badge
    ensures r.roleBadge.value.text == (if s.roleBadge.Some? then s.roleBadge.value.text else role)
    ensures r.githubBadge <==> s.githubBadge || github
  {
    var p := PaletteOf(role);
    var text := if s.roleBadge.Some? then s.roleBadge.value.text else role;
    Styled(Some(p), if s.tracLabel == Shown then Hidden else s.tracLabel,
           Some(RoleBadge(text, p.badge)), s.githubBadge || github)
  }

  /** One comment of highlightContributors in content/trac-sidebar.js. */
  function HighlightComment(c: Change, s: Styled, labels: map<string, string>): (r: Styled)
    ensures RoleOfComment(c, labels).None? ==> r == s
    ensures RoleOfComment(c, labels).Some? ==> r == Style(s, RoleOfComment(c, labels).value, FromGitHub(c))
  {
    match RoleOfComment(c, labels)
    case None => s
    case Some(role) => Style(s, role, FromGitHub(c))
  }

  /** One comment of highlightContributors in content/test-simple.js: the same, without
      the GitHub badge. */
  function HighlightCommentSimple(c: Change, s: Styled, labels: map<string, string>): (r: Styled)
    ensures RoleOfComment(c, labels).None? ==> r == s
    ensures RoleOfComment(c, labels).Some? ==> r == Style(s, RoleOfComment(c, labels).value, false)
  {
    match RoleOfComment(c, labels)
    case None => s
    case Some(role) => Style(s, role, false)
  }

  /** The two copies style a comment alike, except that only the newer one ever adds
      the GitHub badge. */
  lemma SimpleIsNewerWithoutGitHub(c: Change, s: Styled, labels: map<string, string>)
    ensures HighlightCommentSimple(c, s, labels)
         == HighlightComment(c, s, labels).(githubBadge := HighlightCommentSimple(c, s, labels).githubBadge)
    ensures HighlightCommentSimple(c, s, labels).githubBadge == s.githubBadge
  {
  }

  /** Styling is idempotent: a second pass finds the badges it would create and reuses
      them, so no badge is ever doubled. */
  lemma StyleIdempotent(s: Styled, role: string, github: bool)
    ensures Style(Style(s, role, github), role, github) == Style(s, role, github)
  {
    var once := Style(s, role, github);
    assert once.roleBadge.Some? && once.tracLabel != Shown;
  }

  lemma HighlightIdempotent(c: Change, s: Styled, labels: map<string, string>)
    ensures HighlightComment(c, HighlightComment(c, s, labels), labels) == HighlightComment(c, s, labels)
    ensures HighlightCommentSimple(c, HighlightCommentSimple(c, s, labels), labels)
         == HighlightCommentSimple(c, s, labels)
  {
    match RoleOfComment(c, labels)
    case None =>
    case Some(role) =>
      StyleIdempotent(s, role, FromGitHub(c));
      StyleIdempotent(s, role, false);
  }

  // ---------------------------------------------------------------------
  // Role statistics
  // ---------------------------------------------------------------------

  /** The role each comment is highlighted with, as a function value. Counting goes
      through this handle, which keeps the trimming of author names out of the
      counting proofs. */
  function RoleOf(labels: map<string, string>): (f: Change -> Option<string>)
    ensures forall c :: f(c) == RoleOfComment(c, labels)
  {
    c => RoleOfComment(c, labels)
  }

  /** The roles of the comments that have one, in order. */
  function Roles<T>(cs: seq<T>, f: T -> Option<string>): (r: seq<string>)
    ensures |r| <= |cs|
    decreases |cs|
  {
    if |cs| == 0 then []
    else Roles(cs[..|cs| - 1], f) + RoleList(f(cs[|cs| - 1]))
  }

  /** A role as a list of at most one. */
  function RoleList(role: Option<string>): (r: seq<string>)
    ensures |r| == (if role.Some? then 1 else 0)
    ensures role.Some? ==> r[0] == role.value
  {
    match role case Some(x) => [x] case None => []
  }

  lemma RolesStep<T>(cs: seq<T>, f: T -> Option<string>, i: nat)
    requires i < |cs|
    ensures Roles(cs[..i + 1], f) == Roles(cs[..i], f) + RoleList(f(cs[i]))
  {
    assert cs[..i + 1][..i] == cs[..i];
  }

  /** The number of comments with role `role`, an independent count. */
  function Appearances<T>(cs: seq<T>, f: T -> Option<string>, role: string): (n: nat)
    ensures n <= |cs|
  {
    if |cs| == 0 then 0
    else (if f(cs[0]) == Some(role) then 1 else 0) + Appearances(cs[1..], f, role)
  }

  /** The number of comments with a role. */
  function Labelled<T>(cs: seq<T>, f: T -> Option<string>): (n: nat)
    ensures n <= |cs|
  {
    if |cs| == 0 then 0
    else (if f(cs[0]).Some? then 1 else 0) + Labelled(cs[1..], f)
  }

  lemma {:induction false} AppearancesAppend<T>(cs: seq<T>, c: T, f: T -> Option<string>, role: string)
    ensures Appearances(cs + [c], f, role) == Appearances(cs, f, role) + (if f(c) == Some(role) then 1 else 0)
    ensures Labelled(cs + [c], f) == Labelled(cs, f) + (if f(c).Some? then 1 else 0)
    decreases |cs|
  {
    if |cs| > 0 {
      assert (cs + [c])[1..] == cs[1..] + [c];
      AppearancesAppend(cs[1..], c, f, role);
    }
  }

  /** The role list holds each role as often as comments carry it. */
  lemma {:induction false} RolesCount<T>(cs: seq<T>, f: T -> Option<string>, role: string)
    ensures Occurrences(Roles(cs, f), role) == Appearances(cs, f, role)
    decreases |cs|
  {
    if |cs| > 0 {
      var init, last := cs[..|cs| - 1], cs[|cs| - 1];
      assert cs == init + [last];
      RolesCount(init, f, role);
      AppearancesAppend(init, last, f, role);
      var before := Roles(init, f);
      if f(last).Some? {
        OccurrencesStep(before, f(last).value, role);
      } else {
        assert before + RoleList(f(last)) == before;
      }
    }
  }

  /** The role list has one entry per comment with a role. */
  lemma {:induction false} RolesLength<T>(cs: seq<T>, f: T -> Option<string>)
    ensures |Roles(cs, f)| == Labelled(cs, f)
    decreases |cs|
  {
    if |cs| > 0 {
      var init, last := cs[..|cs| - 1], cs[|cs| - 1];
      assert cs == init + [last];
      RolesLength(init, f);
      AppearancesAppend(init, last, f, "");
    }
  }

  /** A role's count in the tally of the comments' roles is the number of comments with
      that role, and a role no comment carries has no entry. */
  lemma TallyOfRoles<T>(cs: seq<T>, f: T -> Option<string>, role: string)
    ensures Get(Tally(Roles(cs, f)), role)
              == if Appearances(cs, f, role) > 0 then Some(Appearances(cs, f, role)) else None
  {
    TallyCount(Roles(cs, f), role);
    RolesCount(cs, f, role);
  }

  /** The tally has a key exactly when some comment has a role. */
  lemma TallyNonEmpty<T>(cs: seq<T>, f: T -> Option<string>)
    ensures |Keys(Tally(Roles(cs, f)))| > 0 <==> Labelled(cs, f) > 0
  {
    var roles := Roles(cs, f);
    TallyKeys(roles);
    RolesLength(cs, f);
    if |roles| > 0 {
      DistinctMembers(roles, roles[0]);
    }
  }

  /** The counting half of the pass: the roles of the highlighted comments bumped into
      an object in comment order, and their number. */
  method CountRoles<T>(cs: seq<T>, f: T -> Option<string>) returns (stats: Object<nat>, highlighted: nat)
    ensures stats == Tally(Roles(cs, f))
    ensures highlighted == Labelled(cs, f)
  {
    var roles := Roles(cs, f);
    stats := [];
    highlighted := 0;
    while highlighted < |roles|
      invariant highlighted <= |roles|
      invariant stats == Tally(roles[..highlighted])
    {
      TallyPrefix(roles, highlighted);
      stats := Bump(stats, roles[highlighted]);
      highlighted := highlighted + 1;
    }
    assert roles[..highlighted] == roles;
    RolesLength(cs, f);
  }

  /** The counting half of the older copy: only the number of highlighted comments. */
  method CountHighlighted<T>(cs: seq<T>, f: T -> Option<string>) returns (highlighted: nat)
    ensures highlighted == Labelled(cs, f)
  {
    highlighted := 0;
    var i := 0;
    while i < |cs|
      invariant 0 <= i <= |cs|
      invariant highlighted == Labelled(cs[..i], f)
    {
      AppearancesAppend(cs[..i], cs[i], f, "");
      assert cs[..i + 1] == cs[..i] + [cs[i]];
      if f(cs[i]).Some? {
        highlighted := highlighted + 1;
      }
      i := i + 1;
    }
    assert cs[..i] == cs;
  }

  /** The outcome of a pass: the new state of every comment, the role counts and the
      number of highlighted comments. The legend is scheduled when the counts are not
      empty. */
  datatype Pass = Pass(styles: seq<Styled>, stats: Object<nat>, highlighted: nat, legend: bool)

  /** highlightContributors of content/trac-sidebar.js over the page's comments and the
      states of their author containers. Styling one comment does not depend on the
      others, so the styles and the counts are computed apart. */
  method HighlightContributors(cs: seq<Change>, ss: seq<Styled>, labels: map<string, string>) returns (p: Pass)
    requires |cs| == |ss|
    ensures |p.styles| == |cs|
    ensures forall i :: 0 <= i < |cs| ==> p.styles[i] == HighlightComment(cs[i], ss[i], labels)
    ensures p.highlighted == Labelled(cs, RoleOf(labels))
    ensures UniqueKeys(p.stats)
    ensures forall role :: Get(p.stats, role) == if Appearances(cs, RoleOf(labels), role) > 0
                                                then Some(Appearances(cs, RoleOf(labels), role)) else None
    ensures Keys(p.stats) == Distinct(Roles(cs, RoleOf(labels)))
    ensures p.legend <==> p.highlighted > 0
  {
    var styles := seq(|cs|, i requires 0 <= i < |cs| => HighlightComment(cs[i], ss[i], labels));
    var f := RoleOf(labels);
    var stats, highlighted := CountRoles(cs, f);
    forall role ensures Get(stats, role) == if Appearances(cs, f, role) > 0
                                            then Some(Appearances(cs, f, role)) else None {
      TallyOfRoles(cs, f, role);
    }
    TallyKeys(Roles(cs, f));
    TallyUnique(Roles(cs, f));
    TallyNonEmpty(cs, f);
    p := Pass(styles, stats, highlighted, |Keys(stats)| > 0);
  }

  /** highlightContributors of content/test-simple.js: the styles alone, with the count
      of highlighted comments. */
  method HighlightContributorsSimple(cs: seq<Change>, ss: seq<Styled>, labels: map<string, string>)
    returns (styles: seq<Styled>, highlighted: nat)
    requires |cs| == |ss|
    ensures |styles| == |cs|
    ensures forall i :: 0 <= i < |cs| ==> styles[i] == HighlightCommentSimple(cs[i], ss[i], labels)
    ensures highlighted == Labelled(cs, RoleOf(labels))
  {
    styles := seq(|cs|, i requires 0 <= i < |cs| => HighlightCommentSimple(cs[i], ss[i], labels));
    highlighted := CountHighlighted(cs, RoleOf(labels));
  }

  /** A comment without a label keeps its state: neither copy touches it. */
  lemma UnlabelledUntouched(cs: seq<Change>, ss: seq<Styled>, labels: map<string, string>, i: nat)
    requires |cs| == |ss| && i < |cs|
    requires cs[i].tracAuthor.None? || !HasLabel(labels, Trim(cs[i].tracAuthor.value.text))
    ensures HighlightComment(cs[i], ss[i], labels) == ss[i]
    ensures HighlightCommentSimple(cs[i], ss[i], labels) == ss[i]
  {
  }
}
