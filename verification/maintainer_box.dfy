/**
 The component maintainer box of content/triage-helper.js
 (createMaintainerInfoBox and findMaintainerComments): the maintainers the
 table lists for the ticket's component, one card each, and a line naming
 a maintainer who took part in the ticket's discussion.
 */
module MaintainerBox {
  import opened Text
  import opened ChangeLog
  import opened Maintainers
  import opened TriageHelper

  // The page's changes are ChangeLog records; the box reads only their
  // `.trac-author-user` link and their `.date` element.

  /** A comment found by findMaintainerComments; `position` stands for the element
      itself, as its index among the page's changes. */
  datatype MaintainerComment = MaintainerComment(author: string, timeAgo: string, position: nat)

  /** `timeElement.getAttribute('title') || timeElement.textContent`, or "" without
      a date element. */
  function TimeText(date: Option<DateElement>): (t: string)
    ensures date.None? ==> t == ""
    ensures date.Some? && date.value.title.Some? && |date.value.title.value| > 0 ==> t == date.value.title.value
    ensures date.Some? && (date.value.title.None? || |date.value.title.value| == 0) ==> t == date.value.text
  {
    match date
    case None => ""
    case Some(d) => if d.title.Some? && |d.title.value| > 0 then d.title.value else d.text
  }

  /** The change was written by one of the maintainers. */
  predicate ByMaintainer(c: Change, maintainers: seq<string>) {
    c.authorUser.Some? && ExtractUsername(c.authorUser.value) in maintainers
  }

  /** The comment recorded for a change written by a maintainer. */
  function CommentOf(c: Change, position: nat): (r: MaintainerComment)
    requires c.authorUser.Some?
    ensures r.author == ExtractUsername(c.authorUser.value) && r.position == position
  {
    MaintainerComment(ExtractUsername(c.authorUser.value), TimeText(c.date), position)
  }

  /** The positions whose flag is set, in increasing order. */
  function Where(flags: seq<bool>): (r: seq<nat>)
    ensures forall k :: 0 <= k < |r| ==> r[k] < |flags| && flags[r[k]]
    ensures forall k, l :: 0 <= k < l < |r| ==> r[k] < r[l]
    decreases |flags|
  {
    if |flags| == 0 then []
    else
      var n := |flags| - 1;
      Where(flags[..n]) + (if flags[n] then [n] else [])
  }

  /** Every set flag's position is listed. */
  lemma {:induction false} WhereComplete(flags: seq<bool>, i: nat)
    requires i < |flags| && flags[i]
    ensures i in Where(flags)
    decreases |flags|
  {
    var n := |flags| - 1;
    if i < n {
      WhereComplete(flags[..n], i);
    }
  }

  /** Which changes a maintainer wrote. */
  function Authored(changes: seq<Change>, maintainers: seq<string>): (flags: seq<bool>)
    ensures |flags| == |changes|
    ensures forall i :: 0 <= i < |changes| ==> (flags[i] <==> ByMaintainer(changes[i], maintainers))
  {
    seq(|changes|, i requires 0 <= i < |changes| => ByMaintainer(changes[i], maintainers))
  }

  /** findMaintainerComments: the changes written by a maintainer, in page order.
      A change without an author link is skipped. */
  function MaintainerComments(changes: seq<Change>, maintainers: seq<string>): (r: seq<MaintainerComment>)
    ensures forall k :: 0 <= k < |r| ==> r[k].position < |changes|
    ensures forall k :: 0 <= k < |r| ==>
      ByMaintainer(changes[r[k].position], maintainers) && r[k] == CommentOf(changes[r[k].position], r[k].position)
    ensures forall k, l :: 0 <= k < l < |r| ==> r[k].position < r[l].position
  {
    var ps := Where(Authored(changes, maintainers));
    seq(|ps|, k requires 0 <= k < |ps| => CommentOf(changes[ps[k]], ps[k]))
  }

  /** Some comment was found at `position`. */
  predicate FoundAt(r: seq<MaintainerComment>, position: nat) {
    exists k :: 0 <= k < |r| && r[k].position == position
  }

  /** No maintainer's change is missed. */
  lemma MaintainerCommentsComplete(changes: seq<Change>, maintainers: seq<string>, i: nat)
    requires i < |changes| && ByMaintainer(changes[i], maintainers)
    ensures FoundAt(MaintainerComments(changes, maintainers), i)
  {
    var ps := Where(Authored(changes, maintainers));
    WhereComplete(Authored(changes, maintainers), i);
    var k :| 0 <= k < |ps| && ps[k] == i;
    assert MaintainerComments(changes, maintainers)[k].position == i;
  }

  /** One maintainer card: the name shown, the link and the role line. */
  datatype Card = Card(username: string, name: string, url: string, role: string)

  /** A card from the maintainer's profile, or from the username alone. */
  function CardOf(username: string): (r: Card)
    ensures r.username == username
    ensures MaintainerProfiles(username).Some? ==>
      var p := MaintainerProfiles(username).value;
      r.name == p.name && r.url == p.profile && r.role == p.role
    ensures MaintainerProfiles(username).None? ==>
      r.name == username && r.url == ProfileFallback(username) && r.role == ""
  {
    match MaintainerProfiles(username)
    case Some(p) => Card(username, p.name, p.profile, p.role)
    case None => Card(username, username, ProfileFallback(username), "")
  }

  /** Every card links to the profile page built from its username, whether or not the
      maintainer has a profile entry. */
  lemma CardLinksProfile(username: string)
    ensures CardOf(username).url == ProfileFallback(username)
  {
    if MaintainerProfiles(username).Some? {
      ProfileUrlsCanonical();
    }
  }

  /** The box: the component, its maintainers' cards, and the activity line. */
  datatype InfoBox = InfoBox(component: string, cards: seq<Card>, activity: Option<MaintainerComment>)

  /** The maintainers listed for the component in the ticket's component cell, none
      when there is no cell, the component is blank, or no one is listed. */
  function ListedFor(componentCell: Option<string>): (r: Option<seq<string>>)
    ensures r.Some? ==> componentCell.Some? && |r.value| > 0
    ensures r.Some? ==> r == ComponentMaintainers(Trim(componentCell.value))
  {
    match TicketComponent(componentCell)
    case None => None
    case Some(component) =>
      if component == "" then None
      else
        match ComponentMaintainers(component)
        case None => None
        case Some(ms) => if |ms| == 0 then None else Some(ms)
  }

  /** `maintainerComments[0]`, the comment the box shows as written: the first one
      on the page. */
  function FirstMaintainerComment(comments: seq<MaintainerComment>): (r: Option<MaintainerComment>)
    ensures r.None? <==> |comments| == 0
    ensures r.Some? ==> r.value == comments[0]
  {
    if |comments| == 0 then None else Some(comments[0])
  }

  /** The latest comment by a maintainer: the last one on the page, since the ticket
      lists its changes oldest first. */
  function LastMaintainerComment(comments: seq<MaintainerComment>): (r: Option<MaintainerComment>)
    ensures r.None? <==> |comments| == 0
    ensures r.Some? ==> r.value in comments
  {
    if |comments| == 0 then None else Some(comments[|comments| - 1])
  }

  /** The comment the box names is the one on the maintainers' latest change. */
  lemma LastIsLatest(changes: seq<Change>, maintainers: seq<string>, i: nat)
    requires i < |changes| && ByMaintainer(changes[i], maintainers)
    ensures var r := LastMaintainerComment(MaintainerComments(changes, maintainers));
      r.Some? && i <= r.value.position && ByMaintainer(changes[r.value.position], maintainers)
  {
    var cs := MaintainerComments(changes, maintainers);
    MaintainerCommentsComplete(changes, maintainers, i);
    var k :| 0 <= k < |cs| && cs[k].position == i;
    var last := |cs| - 1;
    assert LastMaintainerComment(cs) == Some(cs[last]);
    assert k == last || cs[k].position < cs[last].position;
    assert ByMaintainer(changes[cs[last].position], maintainers);
  }

  /** The comment the box shows as written is on the maintainers' earliest change. */
  lemma FirstIsEarliest(changes: seq<Change>, maintainers: seq<string>, i: nat)
    requires i < |changes| && ByMaintainer(changes[i], maintainers)
    ensures var r := FirstMaintainerComment(MaintainerComments(changes, maintainers));
      r.Some? && r.value.position <= i && ByMaintainer(changes[r.value.position], maintainers)
  {
    var cs := MaintainerComments(changes, maintainers);
    MaintainerCommentsComplete(changes, maintainers, i);
    var k :| 0 <= k < |cs| && cs[k].position == i;
    assert FirstMaintainerComment(cs) == Some(cs[0]);
    assert k == 0 || cs[0].position < cs[k].position;
    assert ByMaintainer(changes[cs[0].position], maintainers);
  }

  /** createMaintainerInfoBox: no box without the table, a component or a listed
      maintainer; otherwise a card per listed maintainer and, when one of them
      commented, `maintainerComments[0]`, the first such comment on the page. */
  function MaintainerInfoBox(loaded: bool, componentCell: Option<string>, changes: seq<Change>): (r: Option<InfoBox>)
    ensures r.None? <==> !loaded || ListedFor(componentCell).None?
    ensures r.Some? ==> var ms := ListedFor(componentCell).value;
      && r.value.component == Trim(componentCell.value)
      && |r.value.cards| == |ms|
      && (forall i :: 0 <= i < |ms| ==> r.value.cards[i] == CardOf(ms[i]))
      && r.value.activity == ActivityAsWritten(changes, ms)
  {
    if !loaded then None
    else
      match ListedFor(componentCell)
      case None => None
      case Some(ms) =>
        var cards := seq(|ms|, i requires 0 <= i < |ms| => CardOf(ms[i]));
        Some(InfoBox(Trim(componentCell.value), cards, ActivityAsWritten(changes, ms)))
  }

  /** As written, the box names a maintainer exactly when one of the listed maintainers
      wrote a change on the page, and then names the author of the EARLIEST such
      change, under the heading "Last maintainer comment". */
  lemma ActivityShownAsWritten(loaded: bool, componentCell: Option<string>, changes: seq<Change>)
    requires MaintainerInfoBox(loaded, componentCell, changes).Some?
    ensures var b := MaintainerInfoBox(loaded, componentCell, changes).value;
      var ms := ListedFor(componentCell).value;
      && (b.activity.Some? <==> exists i :: 0 <= i < |changes| && ByMaintainer(changes[i], ms))
      && (b.activity.Some? ==> (b.activity.value.author in ms
            && forall i :: 0 <= i < |changes| && ByMaintainer(changes[i], ms) ==> b.activity.value.position <= i))
  {
    var b := MaintainerInfoBox(loaded, componentCell, changes).value;
    var ms := ListedFor(componentCell).value;
    var cs := MaintainerComments(changes, ms);
    forall i | 0 <= i < |changes| && ByMaintainer(changes[i], ms)
      ensures b.activity.Some? && b.activity.value.position <= i
    {
      FirstIsEarliest(changes, ms, i);
    }
    if b.activity.Some? {
      assert ByMaintainer(changes[cs[0].position], ms);
    }
  }

  /** The box as its heading means it: the same box, naming the latest maintainer
      comment instead of the first. */
  function CorrectedInfoBox(loaded: bool, componentCell: Option<string>, changes: seq<Change>): (r: Option<InfoBox>)
    ensures r.None? <==> MaintainerInfoBox(loaded, componentCell, changes).None?
    ensures r.Some? ==> var b := MaintainerInfoBox(loaded, componentCell, changes).value;
      && r.value.component == b.component && r.value.cards == b.cards
      && r.value.activity == LastMaintainerComment(MaintainerComments(changes, ListedFor(componentCell).value))
  {
    match MaintainerInfoBox(loaded, componentCell, changes)
    case None => None
    case Some(b) => Some(b.(activity := LastMaintainerComment(MaintainerComments(changes, ListedFor(componentCell).value))))
  }

  /** The corrected box names a maintainer exactly when one of the listed maintainers
      wrote a change on the page, and then names the author of the latest such change. */
  lemma ActivityShown(loaded: bool, componentCell: Option<string>, changes: seq<Change>)
    requires CorrectedInfoBox(loaded, componentCell, changes).Some?
    ensures var b := CorrectedInfoBox(loaded, componentCell, changes).value;
      var ms := ListedFor(componentCell).value;
      && (b.activity.Some? <==> exists i :: 0 <= i < |changes| && ByMaintainer(changes[i], ms))
      && (b.activity.Some? ==> (b.activity.value.author in ms
            && forall i :: 0 <= i < |changes| && ByMaintainer(changes[i], ms) ==> i <= b.activity.value.position))
  {
    var b := CorrectedInfoBox(loaded, componentCell, changes).value;
    var ms := ListedFor(componentCell).value;
    var cs := MaintainerComments(changes, ms);
    forall i | 0 <= i < |changes| && ByMaintainer(changes[i], ms)
      ensures b.activity.Some? && i <= b.activity.value.position
    {
      LastIsLatest(changes, ms, i);
    }
    if b.activity.Some? {
      assert ByMaintainer(changes[cs[|cs| - 1].position], ms);
    }
  }

  // ---------------------------------------------------------------------
  // The first comment shown as the last one
  // ---------------------------------------------------------------------

  /** The activity line as the source computes it: present exactly when a listed
      maintainer wrote a change, and then the earliest such change. */
  function ActivityAsWritten(changes: seq<Change>, maintainers: seq<string>): (r: Option<MaintainerComment>)
    ensures r.Some? <==> exists i :: 0 <= i < |changes| && ByMaintainer(changes[i], maintainers)
    ensures r.Some? ==> r.value.position < |changes| && ByMaintainer(changes[r.value.position], maintainers)
    ensures r.Some? ==> forall i :: 0 <= i < |changes| && ByMaintainer(changes[i], maintainers) ==> r.value.position <= i
  {
    ActivityFacts(changes, maintainers);
    FirstMaintainerComment(MaintainerComments(changes, maintainers))
  }

  /** What the first maintainer comment says about the changes. */
  lemma ActivityFacts(changes: seq<Change>, maintainers: seq<string>)
    ensures var r := FirstMaintainerComment(MaintainerComments(changes, maintainers));
      && (r.Some? <==> exists i :: 0 <= i < |changes| && ByMaintainer(changes[i], maintainers))
      && (r.Some? ==> r.value.position < |changes| && ByMaintainer(changes[r.value.position], maintainers))
      && (r.Some? ==> forall i :: 0 <= i < |changes| && ByMaintainer(changes[i], maintainers) ==> r.value.position <= i)
  {
    forall i | 0 <= i < |changes| && ByMaintainer(changes[i], maintainers)
      ensures var r := FirstMaintainerComment(MaintainerComments(changes, maintainers));
        r.Some? && r.value.position <= i
    {
      FirstIsEarliest(changes, maintainers, i);
    }
  }

  /** A maintainer's change with a plain author link and a dated title. */
  function PlainChange(username: string, when: string): Change {
    Change("", None, None, Some(AuthorLink(None, username)), None, Some(DateElement(Some(when), when)), None, None, [], None, [])
  }

  /** Two maintainers commenting in turn: the line as written names the first of them,
      although the second commented later. */
  lemma FirstShownAsLast()
    ensures var changes := [PlainChange("alice", "2024-01-01"), PlainChange("bob", "2024-02-01")];
      var ms := ["alice", "bob"];
      && ActivityAsWritten(changes, ms).Some? && ActivityAsWritten(changes, ms).value.author == "alice"
      && LastMaintainerComment(MaintainerComments(changes, ms)).Some?
      && LastMaintainerComment(MaintainerComments(changes, ms)).value.author == "bob"
  {
    var changes := [PlainChange("alice", "2024-01-01"), PlainChange("bob", "2024-02-01")];
    var ms := ["alice", "bob"];
    PlainUsername("alice");
    PlainUsername("bob");
    var flags := Authored(changes, ms);
    assert flags == [true, true];
    assert flags[..1][..0] == [];
    assert Where(flags[..1]) == [0];
    assert Where(flags) == [0, 1];
  }

  /** A link without an href whose text is a plain name yields that name. */
  lemma PlainUsername(name: string)
    requires |name| > 0 && name[0] != '@' && IsTrimmed(name)
    ensures ExtractUsername(AuthorLink(None, name)) == name
  {
    TrimTrimmed(name);
  }
}
