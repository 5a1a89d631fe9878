/**
 getComponentMaintainerInfo of content/trac-sidebar.js: the maintainers of
 the ticket's component, each with a display name, a profile link, a role
 and a link to their last comment on the ticket.
 */
module MaintainerInfo {
  import opened Text
  import opened ChangeLog
  import opened Maintainers
  import opened RecentComments

  /** One maintainer as the sidebar shows it. */
  datatype MaintainerCard = MaintainerCard(
    username: string,
    displayName: string,
    profileUrl: string,
    role: string,
    lastComment: Option<CommentRef>)

  datatype ComponentInfo = ComponentInfo(component: string, maintainers: seq<MaintainerCard>)

  /** The card of one username: its profile entry when there is one, else the username
      itself, the profile URL built from it, and no role. */
  function CardOf(username: string, cs: seq<Change>): (r: MaintainerCard)
    ensures r.username == username && r.lastComment == LastCommentBy(cs, username)
    ensures MaintainerProfiles(username).Some? ==>
      var p := MaintainerProfiles(username).value;
      r.displayName == p.name && r.profileUrl == p.profile && r.role == p.role
    ensures MaintainerProfiles(username).None? ==>
      r.displayName == username && r.profileUrl == ProfileFallback(username) && r.role == ""
  {
    var last := LastCommentBy(cs, username);
    match MaintainerProfiles(username)
    case Some(p) => MaintainerCard(username, p.name, p.profile, p.role, last)
    case None => MaintainerCard(username, username, ProfileFallback(username), "", last)
  }

  function CardsOf(usernames: seq<string>, cs: seq<Change>): (r: seq<MaintainerCard>)
    ensures |r| == |usernames|
    ensures forall i :: 0 <= i < |r| ==> r[i] == CardOf(usernames[i], cs)
  {
    seq(|usernames|, i requires 0 <= i < |usernames| => CardOf(usernames[i], cs))
  }

  /** getComponentMaintainerInfo. `loaded` says whether both maintainer tables are
      defined, `component` is the text of the ticket's component cell, if the page has
      one. The result is none unless the tables are loaded, the cell exists and the
      trimmed component lists at least one maintainer; otherwise it holds one card per
      listed username, in the table's order. */
  function ComponentMaintainerInfo(loaded: bool, component: Option<string>, cs: seq<Change>): (r: Option<ComponentInfo>)
    ensures r.Some? <==> loaded && component.Some? && ComponentMaintainers(Trim(component.value)).Some?
                         && |ComponentMaintainers(Trim(component.value)).value| > 0
    ensures r.Some? ==> r.value.component == Trim(component.value)
    ensures r.Some? ==> var names := ComponentMaintainers(Trim(component.value)).value;
      |r.value.maintainers| == |names|
      && forall i :: 0 <= i < |names| ==> r.value.maintainers[i] == CardOf(names[i], cs)
  {
    if !loaded || component.None? then None
    else
      var name := Trim(component.value);
      match ComponentMaintainers(name)
      case None => None
      case Some(names) => if |names| == 0 then None else Some(ComponentInfo(name, CardsOf(names, cs)))
  }

  /** With the tables as shipped, the fallbacks never show: every listed maintainer has a
      profile, and its profile URL is the one the fallback would have built. */
  lemma ListedCardsUseProfiles(loaded: bool, component: Option<string>, cs: seq<Change>, i: nat)
    requires ComponentMaintainerInfo(loaded, component, cs).Some?
    requires i < |ComponentMaintainerInfo(loaded, component, cs).value.maintainers|
    ensures var card := ComponentMaintainerInfo(loaded, component, cs).value.maintainers[i];
      && MaintainerProfiles(card.username).Some?
      && card.profileUrl == ProfileFallback(card.username)
  {
    var names := ComponentMaintainers(Trim(component.value)).value;
    var card := ComponentMaintainerInfo(loaded, component, cs).value.maintainers[i];
    assert card == CardOf(names[i], cs);
    ListedMaintainersHaveProfiles(Trim(component.value), names[i]);
    ProfileUrlsCanonical();
  }
}
