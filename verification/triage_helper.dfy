/**
 The comment highlighter of content/triage-helper.js: which features run on
 a page, the ticket's keywords, the username of an author link, and the role
 a comment's author is given. The role comes from a role label Trac shows
 next to the name, else from the component's maintainers, the ticket's
 reporter, the page's contributor labels, and last the custom lists of the
 settings.
 */
module TriageHelper {
  import opened Text
  import opened Patterns
  import opened ChangeLog
  import opened Maintainers
  import opened Settings

  // ---------------------------------------------------------------------
  // initialize, isTicketPage
  // ---------------------------------------------------------------------

  datatype Features = Features(highlightComments: bool, keywordSidebar: bool, maintainerBox: bool)

  const NoFeatures: Features := Features(false, false, false)

  /** initialize: nothing runs unless the path names a ticket; on a ticket page each
      feature runs when its switch is on. */
  function Initialize(path: string, c: Config): (r: Features)
    ensures !HasTicketPath(path) ==> r == NoFeatures
    ensures HasTicketPath(path) ==>
      (r.highlightComments <==> c.highlightComments)
      && (r.keywordSidebar <==> c.showKeywordSidebar)
      && (r.maintainerBox <==> c.showMaintainerInfo)
  {
    if !HasTicketPath(path) then NoFeatures
    else Features(c.highlightComments, c.showKeywordSidebar, c.showMaintainerInfo)
  }

  /** With nothing stored, every feature runs on any path holding "/ticket/" and a digit. */
  lemma TicketPagesRunEverything(before: string, digit: char, after: string)
    requires IsDigit(digit)
    ensures Initialize(before + "/ticket/" + [digit] + after, LoadConfig(None)) == Features(true, true, true)
  {
    var path := before + "/ticket/" + [digit] + after;
    assert path[|before|..][..8] == "/ticket/";
    assert path[|before| + 8] == digit;
    assert TicketAt(path, |before|);
  }

  // ---------------------------------------------------------------------
  // getTicketKeywords, getTicketComponent
  // ---------------------------------------------------------------------

  /** getTicketKeywords: the words of the trimmed keywords cell; none without a cell. */
  function TicketKeywords(cell: Option<string>): (r: seq<string>)
    ensures forall k :: 0 <= k < |r| ==> |r[k]| > 0 && NoSpace(r[k])
    ensures cell.None? || Trim(cell.value) == "" ==> r == []
  {
    if cell.None? then []
    else
      var text := Trim(cell.value);
      if text == "" then [] else Words(text)
  }

  /** A keywords cell holding space-separated keywords, with any spacing around them,
      gives those keywords back in order. */
  lemma KeywordsOfCell(before: string, keywords: seq<string>, after: string)
    requires AllSpace(before) && AllSpace(after)
    requires forall k :: 0 <= k < |keywords| ==> |keywords[k]| > 0 && NoSpace(keywords[k])
    ensures TicketKeywords(Some(before + Join(keywords, ' ') + after)) == keywords
  {
    JoinTrimmed(keywords);
    TrimPadded(before, Join(keywords, ' '), after);
    WordsOfJoin(keywords);
  }

  /** getTicketComponent: the trimmed text of the component cell. */
  function TicketComponent(cell: Option<string>): (r: Option<string>)
    ensures r.Some? <==> cell.Some?
    ensures r.Some? ==> IsTrimmed(r.value) && exists a :: CutFrom(cell.value, r.value, a)
  {
    if cell.None? then None else Some(Trim(cell.value))
  }

  // ---------------------------------------------------------------------
  // extractUsername
  // ---------------------------------------------------------------------

  /** `s.replace(/^@/, '')`. */
  function DropAt(s: string): (r: string)
    ensures |s| > 0 && s[0] == '@' ==> r == s[1..]
    ensures !(|s| > 0 && s[0] == '@') ==> r == s
  {
    if |s| > 0 && s[0] == '@' then s[1..] else s
  }

  /** The `reporter=([^&]+)` value of an href that contains "/query?". */
  function QueryReporter(link: AuthorLink): (r: Option<string>)
    ensures r.Some? ==> link.href.Some? && Contains(link.href.value, "/query?")
    ensures r.Some? ==> |r.value| > 0 && '&' !in r.value
  {
    if link.href.Some? && Contains(link.href.value, "/query?") then FirstCapture(link.href.value, ReporterAt)
    else None
  }

  /** extractUsername: the reporter named by a query link, else the link's trimmed
      text without one leading '@'. */
  function ExtractUsername(link: AuthorLink): (r: string)
    ensures QueryReporter(link).Some? ==> r == QueryReporter(link).value
    ensures QueryReporter(link).None? ==> r == DropAt(Trim(link.text))
  {
    match QueryReporter(link)
    case Some(u) => u
    case None => DropAt(Trim(link.text))
  }

  /** A link to the query page of a reporter names that reporter, whatever its text. */
  lemma UsernameOfQueryLink(user: string, text: string)
    requires |user| > 0 && '&' !in user
    ensures ExtractUsername(AuthorLink(Some("/query?reporter=" + user), text)) == user
  {
    var s := "/query?reporter=" + user;
    assert OccursAt(s, "/query?", 0) by {
      assert s[0..7] == "/query?";
    }
    ContainsWitness(s, "/query?", 0);
    QueryReporterAt(s, user);
  }

  lemma QueryReporterAt(s: string, user: string)
    requires |user| > 0 && '&' !in user && s == "/query?reporter=" + user
    ensures FirstCapture(s, ReporterAt) == Some(user)
  {
    var head := "/query?reporter=";
    assert |head| == 16;
    assert forall k :: 0 <= k < 16 ==> s[k] == head[k];
    assert s[7..][..9] == "reporter=" by {
      forall k | 0 <= k < 9
        ensures s[7..][..9][k] == "reporter="[k]
      {
        assert s[7..][..9][k] == s[7 + k] == head[7 + k];
      }
    }
    assert StartsWith(s[7..], "reporter=");
    assert UntilChar(s, 16, '&') == |s|;
    assert s[16..|s|] == user;
    assert ParamValueAt(s, 7, "reporter=") == Some(user);
    assert ReporterAt(s, 7) == Some(user);
    forall j | 0 <= j < 7
      ensures ReporterAt(s, j).None?
    {
      if j == 4 {
        assert s[5] == head[5] == 'y';
        ParamMismatch(s, j, "reporter=", 1);
      } else {
        assert s[j] == head[j] != 'r';
        ParamMismatch(s, j, "reporter=", 0);
      }
    }
    assert FirstCapture(s, ReporterAt).Some?;
    var i :| 0 <= i <= |s| && ReporterAt(s, i) == FirstCapture(s, ReporterAt)
             && forall j :: 0 <= j < i ==> ReporterAt(s, j).None?;
    assert i == 7;
  }

  /** A parameter whose name differs from the text at some character does not match there. */
  lemma ParamMismatch(s: string, i: nat, name: string, k: nat)
    requires k < |name| && i + k < |s| && s[i + k] != name[k]
    ensures ParamValueAt(s, i, name).None?
  {
  }

  /** A plain author link names the user its text shows, with any spacing around it. */
  lemma UsernameOfText(before: string, user: string, after: string)
    requires AllSpace(before) && AllSpace(after)
    requires |user| > 0 && IsTrimmed(user) && user[0] != '@'
    ensures ExtractUsername(AuthorLink(None, before + user + after)) == user
  {
    TrimPadded(before, user, after);
    PlainLinkUsername(before + user + after);
  }

  /** The '@' before a name in a link's text is not part of the username. */
  lemma UsernameOfAtText(before: string, user: string, after: string)
    requires AllSpace(before) && AllSpace(after)
    requires |user| > 0 && IsTrimmed(user)
    ensures ExtractUsername(AuthorLink(None, before + ("@" + user) + after)) == user
  {
    AtNameTrimmed(user);
    TrimPadded(before, "@" + user, after);
    PlainLinkUsername(before + ("@" + user) + after);
  }

  lemma AtNameTrimmed(user: string)
    requires |user| > 0 && IsTrimmed(user)
    ensures IsTrimmed("@" + user) && DropAt("@" + user) == user
  {
    var t := "@" + user;
    assert t[|t| - 1] == user[|user| - 1];
    assert t[1..] == user;
  }

  /** A link without an href is named by its text. */
  lemma PlainLinkUsername(text: string)
    ensures ExtractUsername(AuthorLink(None, text)) == DropAt(Trim(text))
  {
  }

  // ---------------------------------------------------------------------
  // detectRoleLabel
  // ---------------------------------------------------------------------

  /** The types of highlight, each with the CSS class it adds. */
  datatype UserKind = CoreCommitter | EmeritusCommitter | ComponentMaintainer | LeadTester | Contributor | Reporter

  function KindName(k: UserKind): string {
    match k
    case CoreCommitter => "core-committer"
    case EmeritusCommitter => "emeritus-committer"
    case ComponentMaintainer => "component-maintainer"
    case LeadTester => "lead-tester"
    case Contributor => "contributor"
    case Reporter => "reporter"
  }

  /** The kinds have distinct class names. */
  lemma KindNamesDistinct(a: UserKind, b: UserKind)
    ensures KindName(a) == KindName(b) <==> a == b
  {
  }

  datatype UserType = UserType(kind: UserKind, title: string)

  /** The keys of `roleMap`. */
  const RoleLabels: seq<string> := [
    "Core Committer", "Emeritus Committer", "Lead Tester",
    "Component Maintainer", "Core Developer", "Contributing Developer"
  ]

  /** `roleMap[label]`: every entry keeps its key as its label. */
  function RoleMap(title: string): (r: Option<UserType>)
    ensures r.Some? <==> title in RoleLabels
    ensures r.Some? ==> r.value.title == title
  {
    if title == "Core Committer" then Some(UserType(CoreCommitter, title))
    else if title == "Emeritus Committer" then Some(UserType(EmeritusCommitter, title))
    else if title == "Lead Tester" then Some(UserType(LeadTester, title))
    else if title == "Component Maintainer" then Some(UserType(ComponentMaintainer, title))
    else if title == "Core Developer" then Some(UserType(CoreCommitter, title))
    else if title == "Contributing Developer" then Some(UserType(Contributor, title))
    else None
  }

  /** `Math.min(Math.max(x, 0), n)`: how `substring` clamps its start index. */
  function Clamp(x: int, n: nat): (r: nat)
    ensures r <= n
    ensures 0 <= x <= n ==> r == x
    ensures x < 0 ==> r == 0
    ensures x > n ==> r == n
  {
    if x < 0 then 0 else if x > n then n else x
  }

  /** `full.substring(full.indexOf(name) + name.length)`: the text after the first
      occurrence of the name; when the name does not occur, indexOf's -1 makes it the
      text from index `name.length - 1`. */
  function AfterName(full: string, name: string): (r: string)
    ensures IndexOf(full, name).Some? ==> r == full[IndexOf(full, name).value + |name|..]
    ensures IndexOf(full, name).None? ==> r == full[Clamp(|name| - 1, |full|)..]
  {
    match IndexOf(full, name)
    case Some(i) => full[i + |name|..]
    case None => full[Clamp(|name| - 1, |full|)..]
  }

  /** detectRoleLabel: the letters and spaces that follow the author's name, up to an
      "N units ago" phrase or the end, trimmed and looked up in `roleMap`. `container`
      is the text of the link's parent, when it has one. */
  function DetectRoleLabel(container: Option<string>, linkText: string): (r: Option<UserType>)
    ensures r.Some? ==> container.Some? && r.value.title in RoleLabels && RoleMap(r.value.title) == r
  {
    if container.None? then None
    else
      var after := Trim(AfterName(container.value, linkText));
      match RoleLabelPrefix(after)
      case None => None
      case Some(p) => RoleMap(Trim(p))
  }

  /** A title of letters and spaces after the name, with any spacing between, is
      looked up in `roleMap` as it is. */
  lemma DetectsLabelAfterName(name: string, gap: string, title: string)
    requires AllSpace(gap) && |title| > 0 && AllLabelChars(title) && IsTrimmed(title)
    ensures DetectRoleLabel(Some(name + gap + title), name) == RoleMap(title)
  {
    var container := name + gap + title;
    assert AfterName(container, name) == gap + title by {
      AfterNameAtStart(name, gap + title);
      assert container == name + (gap + title);
    }
    assert Trim(gap + title) == title by {
      TrimPadded(gap, title, "");
      assert gap + title + "" == gap + title;
    }
    assert RoleLabelPrefix(title) == Some(title) by {
      LabelOnlyText(title);
    }
    assert Trim(title) == title by {
      TrimTrimmed(title);
    }
    DetectFromAfter(container, name, title);
  }

  lemma DetectFromAfter(container: string, name: string, title: string)
    requires Trim(AfterName(container, name)) == title
    requires RoleLabelPrefix(title) == Some(title) && Trim(title) == title
    ensures DetectRoleLabel(Some(container), name) == RoleMap(title)
  {
  }

  /** The text after a name the container starts with. */
  lemma AfterNameAtStart(name: string, rest: string)
    ensures AfterName(name + rest, name) == rest
  {
    var full := name + rest;
    assert full[0..|name|] == name;
    assert IndexOf(full, name) == Some(0);
    assert full[|name|..] == rest;
  }

  // ---------------------------------------------------------------------
  // getUserType
  // ---------------------------------------------------------------------

  /** What getUserType reads from the page besides the comment: the component cell,
      whether COMPONENT_MAINTAINERS is loaded, the ticket's `.trac-author-user` link,
      and `wpTracContributorLabels` when the page defines it. */
  datatype Page = Page(
    componentCell: Option<string>,
    maintainersLoaded: bool,
    reporterLink: Option<AuthorLink>,
    contributorLabels: Option<map<string, string>>)

  /** The username is listed for the ticket's (non-empty) component. */
  predicate ListedMaintainer(p: Page, username: string) {
    var component := TicketComponent(p.componentCell);
    && component.Some? && component.value != "" && p.maintainersLoaded
    && ComponentMaintainers(component.value).Some?
    && username in ComponentMaintainers(component.value).value
  }

  predicate IsReporter(p: Page, username: string) {
    p.reporterLink.Some? && ExtractUsername(p.reporterLink.value) == username
  }

  /** `wpTracContributorLabels[username]`, when it is a non-empty label. */
  function ContributorLabel(p: Page, username: string): (r: Option<string>)
    ensures r.Some? ==> (r.value != "" && p.contributorLabels.Some?
      && username in p.contributorLabels.value && p.contributorLabels.value[username] == r.value)
    ensures r.None? ==> (p.contributorLabels.None? || username !in p.contributorLabels.value
      || p.contributorLabels.value[username] == "")
  {
    if p.contributorLabels.Some? && username in p.contributorLabels.value && p.contributorLabels.value[username] != ""
    then Some(p.contributorLabels.value[username])
    else None
  }

  /** `typeMap[label] || 'contributor'`. */
  function ContributorKind(title: string): (k: UserKind)
    ensures k == CoreCommitter <==> title in ["Project Lead", "Lead Developer", "Core Committer"]
    ensures k == EmeritusCommitter <==> title == "Emeritus Committer"
    ensures k == LeadTester <==> title == "Lead Tester"
    ensures k !in {ComponentMaintainer, Reporter}
  {
    if title == "Project Lead" || title == "Lead Developer" || title == "Core Committer" then CoreCommitter
    else if title == "Emeritus Committer" then EmeritusCommitter
    else if title == "Lead Tester" then LeadTester
    else Contributor
  }

  const MaintainerType: UserType := UserType(ComponentMaintainer, "Component Maintainer")
  const ReporterType: UserType := UserType(Reporter, "Reporter")
  const CustomCommitterType: UserType := UserType(CoreCommitter, "Core Committer")
  const CustomTesterType: UserType := UserType(LeadTester, "Lead Tester")

  /** getUserType, given what detectRoleLabel found for the comment: the first of a
      role label, the component's maintainers, the reporter, the page's contributor
      label and the two custom lists that knows the user. */
  function GetUserType(p: Page, c: Config, detected: Option<UserType>, username: string): (r: Option<UserType>)
    ensures detected.Some? ==> r == detected
    ensures detected.None? && ListedMaintainer(p, username) ==> r == Some(MaintainerType)
    ensures detected.None? && !ListedMaintainer(p, username) && IsReporter(p, username) ==> r == Some(ReporterType)
    ensures detected.None? && !ListedMaintainer(p, username) && !IsReporter(p, username)
            && ContributorLabel(p, username).Some? ==>
      var title := ContributorLabel(p, username).value;
      r == Some(UserType(ContributorKind(title), title))
  {
    if detected.Some? then detected
    else if ListedMaintainer(p, username) then Some(MaintainerType)
    else if IsReporter(p, username) then Some(ReporterType)
    else match ContributorLabel(p, username)
      case Some(title) => Some(UserType(ContributorKind(title), title))
      case None =>
        if username in ListOrEmpty(c.customUsers.coreCommitters) then Some(CustomCommitterType)
        else if username in ListOrEmpty(c.customUsers.leadTesters) then Some(CustomTesterType)
        else None
  }

  /** A user is left unhighlighted exactly when no source knows them. */
  lemma UnknownUsers(p: Page, c: Config, detected: Option<UserType>, username: string)
    ensures GetUserType(p, c, detected, username).None? <==>
      && detected.None? && !ListedMaintainer(p, username) && !IsReporter(p, username)
      && ContributorLabel(p, username).None?
      && username !in ListOrEmpty(c.customUsers.coreCommitters)
      && username !in ListOrEmpty(c.customUsers.leadTesters)
  {
  }

  /** The custom lists only add users: whoever the page alone identifies keeps that
      type under any settings. */
  lemma CustomListsOnlyAdd(p: Page, c: Config, d: Config, detected: Option<UserType>, username: string)
    requires d.customUsers.coreCommitters.None? && d.customUsers.leadTesters.None?
    requires GetUserType(p, d, detected, username).Some?
    ensures GetUserType(p, c, detected, username) == GetUserType(p, d, detected, username)
  {
  }

  /** A custom committer or tester the page does not identify gets the custom type. */
  lemma CustomListsApply(p: Page, c: Config, username: string)
    requires !ListedMaintainer(p, username) && !IsReporter(p, username) && ContributorLabel(p, username).None?
    ensures username in ListOrEmpty(c.customUsers.coreCommitters) ==>
      GetUserType(p, c, None, username) == Some(CustomCommitterType)
    ensures username !in ListOrEmpty(c.customUsers.coreCommitters) && username in ListOrEmpty(c.customUsers.leadTesters) ==>
      GetUserType(p, c, None, username) == Some(CustomTesterType)
  {
  }

  // ---------------------------------------------------------------------
  // hasVisibleTracRoleLabel, addCommentHighlight, highlightComments
  // ---------------------------------------------------------------------

  /** The role labels whose presence in the header means Trac already shows the role. */
  const KnownRoles: seq<string> := ["Core Committer", "Emeritus Committer", "Lead Tester", "Component Maintainer"]

  /** hasVisibleTracRoleLabel: the header text (none reads as "") contains a known role. */
  function HasVisibleTracRoleLabel(header: Option<string>): (r: bool)
    ensures r <==> header.Some? && exists k :: 0 <= k < |KnownRoles| && Contains(header.value, KnownRoles[k])
  {
    header.Some? && ContainsAny(header.value, KnownRoles)
  }

  /** `subs.some(sub => text.includes(sub))`. */
  function ContainsAny(text: string, subs: seq<string>): (r: bool)
    ensures r <==> exists k :: 0 <= k < |subs| && Contains(text, subs[k])
  {
    if |subs| == 0 then false
    else if Contains(text, subs[0]) then true
    else
      assert forall k :: 1 <= k < |subs| ==> subs[k] == subs[1..][k - 1];
      ContainsAny(text, subs[1..])
  }

  /** Two labels roleMap recognises are not among the labels taken as visible, so a
      comment whose header shows one of them gets a badge repeating it. */
  lemma DeveloperLabelsNotKnown()
    ensures forall l :: l in RoleLabels && l !in KnownRoles <==> l == "Core Developer" || l == "Contributing Developer"
    ensures forall l :: l in KnownRoles ==> l in RoleLabels
  {
  }

  /** One element of `.change, #ticket`: its first `.author, .trac-author-user`
      element, the text of that element's parent (if it has one), and the text of the
      parent of its first `.trac-author-user` element (if any). */
  datatype CommentElement = CommentElement(
    authorLink: Option<AuthorLink>,
    container: Option<string>,
    header: Option<string>)

  /** A highlighted comment: the author, the type and label of the highlight, and
      whether a badge is inserted after the author link. */
  datatype Highlight = Highlight(username: string, kind: UserKind, title: string, badge: bool)

  /** The body of the highlightComments loop for one element. */
  function HighlightOf(p: Page, c: Config, e: CommentElement): (r: Option<Highlight>)
    ensures e.authorLink.None? ==> r.None?
    ensures e.authorLink.Some? ==>
      var username := ExtractUsername(e.authorLink.value);
      var t := GetUserType(p, c, DetectRoleLabel(e.container, e.authorLink.value.text), username);
      && (r.Some? <==> username != "" && t.Some?)
      && (r.Some? ==> r.value.username == username && r.value.kind == t.value.kind && r.value.title == t.value.title)
    ensures r.Some? ==> (r.value.badge <==> e.container.Some? && !HasVisibleTracRoleLabel(e.header))
  {
    match e.authorLink
    case None => None
    case Some(link) =>
      var username := ExtractUsername(link);
      if username == "" then None
      else match GetUserType(p, c, DetectRoleLabel(e.container, link.text), username)
        case None => None
        case Some(t) => Some(Highlight(username, t.kind, t.title, e.container.Some? && !HasVisibleTracRoleLabel(e.header)))
  }

  /** How many of the entries are present. */
  function CountSome<T>(xs: seq<Option<T>>): (n: nat)
    ensures n <= |xs|
    decreases |xs|
  {
    if |xs| == 0 then 0
    else CountSome(xs[..|xs| - 1]) + (if xs[|xs| - 1].Some? then 1 else 0)
  }

  lemma CountSomePrefix<T>(xs: seq<Option<T>>, i: nat)
    requires i < |xs|
    ensures CountSome(xs[..i + 1]) == CountSome(xs[..i]) + (if xs[i].Some? then 1 else 0)
  {
    assert xs[..i + 1][..i] == xs[..i];
  }

  /** None are present exactly when every entry is absent. */
  lemma {:induction false} CountSomeZero<T>(xs: seq<Option<T>>)
    ensures CountSome(xs) == 0 <==> forall i :: 0 <= i < |xs| ==> xs[i].None?
    decreases |xs|
  {
    if |xs| > 0 {
      var init := xs[..|xs| - 1];
      CountSomeZero(init);
      assert forall i :: 0 <= i < |init| ==> init[i] == xs[i];
    }
  }

  /** highlightComments: the highlight of each element, and how many there are. */
  method HighlightComments(p: Page, c: Config, es: seq<CommentElement>) returns (hs: seq<Option<Highlight>>, count: nat)
    ensures |hs| == |es| && forall i :: 0 <= i < |es| ==> hs[i] == HighlightOf(p, c, es[i])
    ensures count == CountSome(hs)
  {
    hs := seq(|es|, i requires 0 <= i < |es| => HighlightOf(p, c, es[i]));
    count := 0;
    for i := 0 to |hs|
      invariant count == CountSome(hs[..i])
    {
      CountSomePrefix(hs, i);
      if hs[i].Some? {
        count := count + 1;
      }
    }
    assert hs[..|hs|] == hs;
  }
}
