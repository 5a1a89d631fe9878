/**
 The comment lookups of the sidebar (content/trac-sidebar.js; the older
 content/test-simple.js has the same ones, reading dates from the header
 only): the latest comments, the last comment of a given user, and the
 patches a user attached.
 */
module RecentComments {
  import opened Text
  import opened Patterns
  import opened ChangeLog

  /** One entry of the "recent comments" list. `role` and `roleColor` are null for an
      author without a role. */
  datatype RecentComment = RecentComment(
    number: string,
    author: string,
    role: Option<string>,
    roleColor: Option<string>,
    date: string,
    link: string)

  // ---------------------------------------------------------------------
  // Comment numbers
  // ---------------------------------------------------------------------

  /** The comment number an element id carries: what follows "comment:", or the digits
      of "trac-change-<digits>-"; none for any other id, and none when that is empty. */
  function CommentNumber(id: string): (r: Option<string>)
    ensures r.Some? ==> r.value != ""
    ensures StartsWith(id, "comment:") ==> r == (if |id| > 8 then Some(id[8..]) else None)
    ensures !StartsWith(id, "comment:") && StartsWith(id, "trac-change-") ==> r == FirstCapture(id, TracChangeAt)
    ensures !StartsWith(id, "comment:") && !StartsWith(id, "trac-change-") ==> r.None?
  {
    if id == "" then None
    else if StartsWith(id, "comment:") then
      assert IndexOf(id, "comment:") == Some(0);
      assert id[..0] + "" + id[8..] == id[8..];
      var n := ReplaceFirst(id, "comment:", "");
      if n == "" then None else Some(n)
    else if StartsWith(id, "trac-change-") then FirstCapture(id, TracChangeAt)
    else None
  }

  /** The ids Trac gives comments carry their number back. */
  lemma CommentNumberOfCommentId(n: string)
    requires n != ""
    ensures CommentNumber("comment:" + n) == Some(n)
  {
    assert ("comment:" + n)[..8] == "comment:";
    assert ("comment:" + n)[8..] == n;
  }

  lemma CommentNumberOfChangeId(n: string, rest: string)
    requires n != "" && AllDigits(n)
    ensures CommentNumber("trac-change-" + n + "-" + rest) == Some(n)
  {
    var id := "trac-change-" + n + "-" + rest;
    assert id[..12] == "trac-change-";
    assert id[..8] != "comment:" by { assert id[0] == 't'; }
    assert id[12..12 + |n|] == n;
    DigitRunEndAt(id, 12, 12 + |n|);
    assert TracChangeAt(id, 0) == Some(n);
  }

  // ---------------------------------------------------------------------
  // Authors and roles
  // ---------------------------------------------------------------------

  /** The role labels the recent-comments list strips, in the order of its pattern. */
  const RecentLabels: seq<string> := [
    "Core Committer", "Lead Tester", "Project Lead", "Lead Developer", "Emeritus Committer", "Themes Committer"
  ]

  /** The role colours of the recent-comments list; other roles get #607D8B. */
  const RecentRoleColors: map<string, string> := map[
    "Project Lead" := "#9C27B0",
    "Lead Developer" := "#2196F3",
    "Core Committer" := "#4CAF50",
    "Emeritus Committer" := "#FF9800",
    "Lead Tester" := "#E91E63",
    "Themes Committer" := "#00BCD4"
  ]

  /** The username in an author link: a `reporter`, `owner` or `author` query value,
      else a profile path, else "unknown". */
  function HrefUser(href: string): (r: string)
    ensures FirstCapture(href, QueryUserAt).Some? ==> r == FirstCapture(href, QueryUserAt).value
    ensures FirstCapture(href, QueryUserAt).None? && FirstCapture(href, ProfileAt).Some? ==>
      r == FirstCapture(href, ProfileAt).value
    ensures FirstCapture(href, QueryUserAt).None? && FirstCapture(href, ProfileAt).None? ==> r == "unknown"
  {
    match FirstCapture(href, QueryUserAt)
    case Some(u) => u
    case None =>
      match FirstCapture(href, ProfileAt)
      case Some(u) => u
      case None => "unknown"
  }

  /** The author of a recent comment: from the link's href when it names one (and that
      name is not literally "unknown"), else the trimmed text cut before a role label;
      "unknown" when the change has no author element. */
  function RecentAuthor(c: Change): (r: string)
    ensures c.authorElement.None? ==> r == "unknown"
    ensures c.authorElement.Some? && c.authorElement.value.href.Some?
            && HrefUser(c.authorElement.value.href.value) != "unknown" ==>
      r == HrefUser(c.authorElement.value.href.value)
    ensures c.authorElement.Some? && (c.authorElement.value.href.None?
            || HrefUser(c.authorElement.value.href.value) == "unknown") ==>
      r == StripRoleLabel(Trim(c.authorElement.value.text), RecentLabels)
  {
    match c.authorElement
    case None => "unknown"
    case Some(a) =>
      var fromHref := if a.href.Some? then HrefUser(a.href.value) else "unknown";
      if fromHref == "unknown" then StripRoleLabel(Trim(a.text), RecentLabels) else fromHref
  }

  /** The role shown for an author, and its colour: both present exactly when the
      author has a non-empty label; the colour falls back to #607D8B. */
  function RoleOf(labels: map<string, string>, author: string): (r: (Option<string>, Option<string>))
    ensures r.0.Some? <==> HasLabel(labels, author)
    ensures r.1.Some? <==> HasLabel(labels, author)
    ensures r.0.Some? ==> r.0.value == labels[author]
    ensures r.1.Some? && r.0.value in RecentRoleColors ==> r.1.value == RecentRoleColors[r.0.value]
    ensures r.1.Some? && r.0.value !in RecentRoleColors ==> r.1.value == "#607D8B"
  {
    if HasLabel(labels, author) then
      var role := labels[author];
      (Some(role), Some(if role in RecentRoleColors then RecentRoleColors[role] else "#607D8B"))
    else (None, None)
  }

  /** The entry of a change, or none when its id carries no comment number. The date
      is read by `date`: RelativeTime in the sidebar, HeaderTime in the older script. */
  function CommentOf(c: Change, labels: map<string, string>, date: Change -> string): (r: Option<RecentComment>)
    ensures r.Some? <==> CommentNumber(c.id).Some?
    ensures r.Some? ==> r.value.number == CommentNumber(c.id).value && r.value.link == "#" + c.id
    ensures r.Some? ==> r.value.author == RecentAuthor(c) && r.value.date == date(c)
    ensures r.Some? ==> (r.value.role.Some? <==> HasLabel(labels, r.value.author))
  {
    match CommentNumber(c.id)
    case None => None
    case Some(n) =>
      var author := RecentAuthor(c);
      var (role, color) := RoleOf(labels, author);
      Some(RecentComment(n, author, role, color, date(c), "#" + c.id))
  }

  function CommentList(c: Change, labels: map<string, string>, date: Change -> string): (r: seq<RecentComment>)
    ensures |r| <= 1
    ensures |r| == 1 <==> CommentNumber(c.id).Some?
  {
    match CommentOf(c, labels, date) case Some(e) => [e] case None => []
  }

  /** The entries of all numbered changes, in document order. */
  function Numbered(cs: seq<Change>, labels: map<string, string>, date: Change -> string): (r: seq<RecentComment>)
    ensures |r| <= |cs|
  {
    if |cs| == 0 then [] else CommentList(cs[0], labels, date) + Numbered(cs[1..], labels, date)
  }

  lemma {:induction false} NumberedAppend(a: seq<Change>, b: seq<Change>, labels: map<string, string>,
                                          date: Change -> string)
    ensures Numbered(a + b, labels, date) == Numbered(a, labels, date) + Numbered(b, labels, date)
    decreases |a|
  {
    if |a| == 0 {
      assert a + b == b;
    } else {
      assert (a + b)[1..] == a[1..] + b;
      NumberedAppend(a[1..], b, labels, date);
    }
  }

  /** The first `n` elements, or all of them when there are fewer; none for `n <= 0`. */
  function Take<T>(s: seq<T>, n: int): (r: seq<T>)
    ensures |r| == if n <= 0 then 0 else if n < |s| then n else |s|
    ensures forall i :: 0 <= i < |r| ==> r[i] == s[i]
  {
    if n <= 0 then [] else if n < |s| then s[..n] else s
  }

  lemma NumberedFrom(cs: seq<Change>, i: nat, labels: map<string, string>, date: Change -> string)
    requires i < |cs|
    ensures Reverse(Numbered(cs[i..], labels, date))
      == Reverse(Numbered(cs[i + 1..], labels, date)) + CommentList(cs[i], labels, date)
  {
    var one := CommentList(cs[i], labels, date);
    assert cs[i..][1..] == cs[i + 1..];
    assert Numbered(cs[i..], labels, date) == one + Numbered(cs[i + 1..], labels, date);
    ReverseAppend(one, Numbered(cs[i + 1..], labels, date));
    assert Reverse(one) == one;
  }

  /** Once the newest part of the log yields `count` entries, older changes cannot
      change the first `count` of the newest-first list. */
  lemma NewestPart(cs: seq<Change>, i: nat, count: int, labels: map<string, string>, date: Change -> string)
    requires i <= |cs|
    requires var r := Reverse(Numbered(cs[i..], labels, date)); |r| <= count || r == []
    requires i == 0 || |Reverse(Numbered(cs[i..], labels, date))| >= count
    ensures Reverse(Numbered(cs[i..], labels, date)) == Take(Reverse(Numbered(cs, labels, date)), count)
  {
    var older, newer := Numbered(cs[..i], labels, date), Numbered(cs[i..], labels, date);
    NumberedAppend(cs[..i], cs[i..], labels, date);
    assert cs[..i] + cs[i..] == cs;
    ReverseAppend(older, newer);
    if i == 0 {
      assert older == [];
    }
  }

  /** getRecentComments: the changes are scanned from the newest back, skipping those
      without a comment number, until `count` entries are collected. The result is the
      newest `count` numbered comments, newest first. */
  method GetRecentComments(cs: seq<Change>, count: int, labels: map<string, string>, date: Change -> string)
    returns (r: seq<RecentComment>)
    ensures r == Take(Reverse(Numbered(cs, labels, date)), count)
    ensures |r| <= count || r == []
  {
    r := [];
    if |cs| == 0 {
      return;
    }
    var i := |cs|;
    while i > 0 && |r| < count
      invariant 0 <= i <= |cs|
      invariant r == Reverse(Numbered(cs[i..], labels, date))
      invariant |r| <= count || r == []
      decreases i
    {
      i := i - 1;
      NumberedFrom(cs, i, labels, date);
      r := r + CommentList(cs[i], labels, date);
    }
    NewestPart(cs, i, count, labels, date);
  }

  // ---------------------------------------------------------------------
  // findLastCommentByUser
  // ---------------------------------------------------------------------

  /** Where a user last commented: a link to the change and its header time. */
  datatype CommentRef = CommentRef(link: string, date: string)

  /** The position of the last of the first `n` elements that satisfies `p`, if any. */
  function LastWhere<T>(s: seq<T>, p: T -> bool, n: nat): (r: Option<nat>)
    requires n <= |s|
    ensures r.Some? ==> r.value < n && p(s[r.value])
    ensures r.Some? ==> forall j :: r.value < j < n ==> !p(s[j])
    ensures r.None? ==> forall j :: 0 <= j < n ==> !p(s[j])
  {
    if n == 0 then None
    else if p(s[n - 1]) then Some(n - 1)
    else LastWhere(s, p, n - 1)
  }

  /** A prefix answers alike whether or not more elements follow it. */
  lemma {:induction false} LastWherePrefix<T>(s: seq<T>, more: seq<T>, p: T -> bool, n: nat)
    requires n <= |s|
    ensures LastWhere(s + more, p, n) == LastWhere(s, p, n)
  {
    if n > 0 {
      assert (s + more)[n - 1] == s[n - 1];
      LastWherePrefix(s, more, p, n - 1);
    }
  }

  /** Elements after the last match that do not match leave it in place. */
  lemma {:induction false} LastWhereOthers<T>(s: seq<T>, more: seq<T>, p: T -> bool, n: nat)
    requires |s| <= n <= |s| + |more|
    requires forall j :: 0 <= j < |more| ==> !p(more[j])
    ensures LastWhere(s + more, p, n) == LastWhere(s, p, |s|)
  {
    if n == |s| {
      LastWherePrefix(s, more, p, n);
    } else {
      assert (s + more)[n - 1] == more[n - 1 - |s|];
      LastWhereOthers(s, more, p, n - 1);
    }
  }

  /** The position of the latest change by `user`, if any. */
  function LastIndexBy(cs: seq<Change>, user: string): (r: Option<nat>)
    ensures r.Some? ==> r.value < |cs| && ByUser(cs[r.value], user)
    ensures r.Some? ==> forall j :: r.value < j < |cs| ==> !ByUser(cs[j], user)
    ensures r.None? ==> forall j :: 0 <= j < |cs| ==> !ByUser(cs[j], user)
  {
    LastWhere(cs, c => ByUser(c, user), |cs|)
  }

  /** findLastCommentByUser: a link to, and the header time of, the latest change whose
      trimmed `.trac-author` text is the user, or none. The link is "#" followed by the
      change's id, even an empty one. */
  function LastCommentBy(cs: seq<Change>, user: string): (r: Option<CommentRef>)
    ensures r.None? <==> forall j :: 0 <= j < |cs| ==> !ByUser(cs[j], user)
    ensures r.Some? ==> exists i :: (0 <= i < |cs| && ByUser(cs[i], user)
                                     && (forall j :: i < j < |cs| ==> !ByUser(cs[j], user))
                                     && r.value == CommentRef("#" + cs[i].id, HeaderTime(cs[i])))
  {
    match LastIndexBy(cs, user)
    case None => None
    case Some(i) => Some(CommentRef("#" + cs[i].id, HeaderTime(cs[i])))
  }

  /** Comments by others after the user's last one leave the answer unchanged. */
  lemma LastCommentByOthers(cs: seq<Change>, more: seq<Change>, user: string)
    requires forall j :: 0 <= j < |more| ==> !ByUser(more[j], user)
    ensures LastCommentBy(cs + more, user) == LastCommentBy(cs, user)
  {
    var p := c => ByUser(c, user);
    LastWhereOthers(cs, more, p, |cs + more|);
    if LastIndexBy(cs, user).Some? {
      var i := LastIndexBy(cs, user).value;
      assert (cs + more)[i] == cs[i];
    }
  }

  // ---------------------------------------------------------------------
  // findPatchesByAuthor
  // ---------------------------------------------------------------------

  /** An `#attachments .attachment` element: the texts of its `.trac-author` and
      `.trac-file` children, when present. */
  datatype Attachment = Attachment(author: Option<string>, file: Option<string>)

  /** The attachment is a patch (`.patch` or `.diff`, any case) by `author`. */
  predicate IsPatchBy(a: Attachment, author: string) {
    a.author.Some? && Trim(a.author.value) == author && a.file.Some? && IsPatchFileName(Trim(a.file.value))
  }

  /** The trimmed file name of the attachment, when it is a patch by `author`. */
  function PatchName(a: Attachment, author: string): (r: Option<string>)
    ensures r.Some? <==> IsPatchBy(a, author)
    ensures r.Some? ==> r.value == Trim(a.file.value) && IsPatchFileName(r.value)
  {
    if IsPatchBy(a, author) then Some(Trim(a.file.value)) else None
  }

  /** Some attachment of the list is a patch by `author` named `f`. */
  predicate HasPatch(attachments: seq<Attachment>, author: string, f: string) {
    |attachments| > 0
    && (PatchName(attachments[0], author) == Some(f) || HasPatch(attachments[1..], author, f))
  }

  /** findPatchesByAuthor: the trimmed file names of the author's patches, in page order. */
  function PatchesBy(attachments: seq<Attachment>, author: string): (r: seq<string>)
    ensures |r| <= |attachments|
    ensures forall f :: f in r ==> IsPatchFileName(f)
    ensures forall f :: f in r <==> HasPatch(attachments, author, f)
  {
    if |attachments| == 0 then []
    else
      var rest := PatchesBy(attachments[1..], author);
      match PatchName(attachments[0], author)
      case Some(name) => [name] + rest
      case None => rest
  }
}
