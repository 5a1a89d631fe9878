/**
 A ticket's change log, as the sidebar scripts see it: one record per
 `.change` element of the page, holding only the texts and attributes the
 scripts read. Every extractor is a function of a sequence of these records
 in document order (oldest first, as Trac lists them).

 The author and time rules below are shared by several extractors in
 content/trac-sidebar.js.
 */
module ChangeLog {
  import opened Text
  import opened Patterns

  /** The change's `.trac-author` element. */
  datatype TracAuthor = TracAuthor(
    text: string,               // its whole text
    username: Option<string>,   // the text of a `.username` span inside it
    unbadged: string)           // its text once the extension's own badges are removed

  /** An element that names an author and may link to a query or profile page. */
  datatype AuthorLink = AuthorLink(href: Option<string>, text: string)

  /** The `h3.change` header: its text, the href of an anchor whose href contains
      "#comment", and whether it carries the chat-bot or prbot class. */
  datatype Header = Header(text: string, commentHref: Option<string>, fromBot: bool)

  /** A `ul.changes li` field item: its text and the texts of its `<em>` children. */
  datatype FieldItem = FieldItem(text: string, ems: seq<string>)

  /** The `.date` element: its title attribute and its text. */
  datatype DateElement = DateElement(title: Option<string>, text: string)

  datatype Change = Change(
    id: string,                       // the element id; "" when it has none
    tracAuthor: Option<TracAuthor>,   // `.trac-author`
    authorElement: Option<AuthorLink>,// first of `.trac-author, .trac-author-user, a[href*="query"]`
    authorUser: Option<AuthorLink>,   // `.trac-author-user`
    header: Option<Header>,
    date: Option<DateElement>,        // `.date`
    timelineLink: Option<string>,     // text of `.date .timeline`
    timeSpan: Option<string>,         // text of `.trac-time, .time-ago, [title*="ago"]`
    keywordItems: seq<FieldItem>,     // `ul.changes li.trac-field-keywords`
    milestoneItem: Option<FieldItem>, // the first `li.trac-field-milestone`
    items: seq<string>)               // texts of all `ul.changes li`

  /** The role labels the extractors strip from an author's text. */
  const AuthorLabels: seq<string> := [
    "Core Committer", "Lead Developer", "Emeritus Committer", "Component Maintainer",
    "Lead Tester", "Themes Committer", "Project Lead", "Individual Contributor"
  ]

  /** `x ? "#" + x : fallback`: a link to an element id, when there is one. */
  function Anchor(id: string): (r: Option<string>)
    ensures r.Some? <==> id != ""
    ensures r.Some? ==> r.value == "#" + id && r.value[1..] == id
  {
    if id == "" then None else Some("#" + id)
  }

  /** The "N units ago" phrase in the header, or "unknown". */
  function HeaderTime(c: Change): (r: string)
    ensures c.header.Some? && TimeAgo(c.header.value.text).Some? ==> r == TimeAgo(c.header.value.text).value
    ensures c.header.None? || TimeAgo(c.header.value.text).None? ==> r == "unknown"
  {
    if c.header.Some? && TimeAgo(c.header.value.text).Some? then TimeAgo(c.header.value.text).value
    else "unknown"
  }

  /** The relative time of a change, looked for in three places: the `.date .timeline`
      link, then a time span, then the header. A place is consulted only while the
      result is still the literal "unknown". */
  function RelativeTime(c: Change): (r: string)
    ensures c.timelineLink.Some? && Trim(c.timelineLink.value) != "unknown" ==> r == Trim(c.timelineLink.value)
    ensures ((c.timelineLink.None? || Trim(c.timelineLink.value) == "unknown") && c.timeSpan.Some?
             && Trim(c.timeSpan.value) != "unknown") ==> r == Trim(c.timeSpan.value)
    ensures ((c.timelineLink.None? || Trim(c.timelineLink.value) == "unknown")
             && (c.timeSpan.None? || Trim(c.timeSpan.value) == "unknown")) ==> r == HeaderTime(c)
  {
    var first := if c.timelineLink.Some? then Trim(c.timelineLink.value) else "unknown";
    var second := if first == "unknown" && c.timeSpan.Some? then Trim(c.timeSpan.value) else first;
    if second == "unknown" then HeaderTime(c) else second
  }

  /** The author of a change as the keyword and milestone extractors read it: the
      `.username` span when there is one, otherwise the unbadged text with any trailing
      role label cut off; `fallback` when the change has no `.trac-author`. */
  function CleanAuthor(c: Change, fallback: string): (r: string)
    ensures c.tracAuthor.None? ==> r == fallback
    ensures c.tracAuthor.Some? && c.tracAuthor.value.username.Some? ==> r == Trim(c.tracAuthor.value.username.value)
    ensures c.tracAuthor.Some? && c.tracAuthor.value.username.None? ==>
      r == StripRoleLabel(Trim(c.tracAuthor.value.unbadged), AuthorLabels)
            && StartsWith(Trim(c.tracAuthor.value.unbadged), r)
  {
    match c.tracAuthor
    case None => fallback
    case Some(a) =>
      match a.username
      case Some(u) => Trim(u)
      case None => StripRoleLabel(Trim(a.unbadged), AuthorLabels)
  }

  /** `labels[author] || fallback`: the author's label when it is present and not empty. */
  function LabelOr(labels: map<string, string>, author: string, fallback: string): (r: string)
    ensures author in labels && labels[author] != "" ==> r == labels[author]
    ensures author !in labels || labels[author] == "" ==> r == fallback
  {
    if author in labels && labels[author] != "" then labels[author] else fallback
  }

  /** Whether `labels[author]` is truthy. */
  predicate HasLabel(labels: map<string, string>, author: string) {
    author in labels && labels[author] != ""
  }

  /** The change's trimmed `.trac-author` text is `user`. */
  predicate ByUser(c: Change, user: string) {
    c.tracAuthor.Some? && Trim(c.tracAuthor.value.text) == user
  }
}
