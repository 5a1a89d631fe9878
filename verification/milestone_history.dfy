/**
 extractMilestoneHistory of content/trac-sidebar.js, and how the sidebar
 shows each entry (formatMilestoneWithLink and the from/set-to/removed
 wording).

 A change with a milestone item gives one entry: the milestone it moved
 from (absent for "set to") and the one it moved to, read from the item's
 `<em>` names when there are one or two of them, else from its text.
 */
module MilestoneHistory {
  import opened Text
  import opened Patterns
  import opened ChangeLog

  datatype MilestoneEntry = MilestoneEntry(
    from: Option<string>,   // null for "set to" and for an empty from-milestone
    to: string,             // "(none)" when the milestone was removed
    author: string,
    authorRole: string,
    relativeTime: string,
    commentId: string)      // the header's "#comment" link, or ""

  /** The from- and to-milestones an item names, before normalisation: both `<em>`
      names when there are two, the one name as the target when there is one, else what
      the text says. */
  function RawMilestones(item: FieldItem): (r: (Option<string>, Option<string>))
    ensures |item.ems| == 2 ==> r == (Some(Trim(item.ems[0])), Some(Trim(item.ems[1])))
    ensures |item.ems| == 1 ==> r == (None, Some(Trim(item.ems[0])))
    ensures |item.ems| != 1 && |item.ems| != 2 ==> r == TextMilestones(item.text)
  {
    if |item.ems| == 2 then (Some(Trim(item.ems[0])), Some(Trim(item.ems[1])))
    else if |item.ems| == 1 then (None, Some(Trim(item.ems[0])))
    else TextMilestones(item.text)
  }

  /** The milestones of an item's text: the first "changed from X to Y", else the first
      "set to X", else none. A captured name has no spaces, so the source's trimming of
      it is left out (CapturesTrimmed). */
  function TextMilestones(text: string): (r: (Option<string>, Option<string>))
    ensures FirstCapture<(string, string)>(text, ChangedFromAt).Some? ==>
      r.0.Some? && r.1.Some? && (r.0.value, r.1.value) == FirstCapture<(string, string)>(text, ChangedFromAt).value
    ensures FirstCapture<(string, string)>(text, ChangedFromAt).None? ==>
      r.0.None? && r.1 == FirstCapture<string>(text, SetToAt)
  {
    match FirstCapture<(string, string)>(text, ChangedFromAt)
    case Some((a, b)) => (Some(a), Some(b))
    case None => (None, FirstCapture<string>(text, SetToAt))
  }

  /** Trimming a name the text patterns capture changes nothing. */
  lemma CapturesTrimmed(text: string)
    ensures var r := TextMilestones(text);
      && (r.0.Some? ==> Trim(r.0.value) == r.0.value)
      && (r.1.Some? ==> Trim(r.1.value) == r.1.value)
  {
    var r := TextMilestones(text);
    var pair := FirstCapture<(string, string)>(text, ChangedFromAt);
    if pair.Some? {
      ChangedFromNoSpace(text);
      assert r.0.value == pair.value.0 && r.1.value == pair.value.1;
      TrimNoSpace(r.0.value);
      TrimNoSpace(r.1.value);
    } else if r.1.Some? {
      SetToNoSpace(text);
      TrimNoSpace(r.1.value);
    }
  }

  lemma ChangedFromNoSpace(text: string)
    ensures var c := FirstCapture<(string, string)>(text, ChangedFromAt);
      c.Some? ==> NoSpace(c.value.0) && NoSpace(c.value.1)
  {
    var c := FirstCapture<(string, string)>(text, ChangedFromAt);
    if c.Some? {
      var i :| 0 <= i <= |text| && ChangedFromAt(text, i) == c;
    }
  }

  lemma SetToNoSpace(text: string)
    ensures var c := FirstCapture<string>(text, SetToAt);
      c.Some? ==> NoSpace(c.value)
  {
    var c := FirstCapture<string>(text, SetToAt);
    if c.Some? {
      var i :| 0 <= i <= |text| && SetToAt(text, i) == c;
    }
  }

  /** A missing or empty target becomes "(none)". */
  function NormalTo(to: Option<string>): (r: string)
    ensures r != ""
    ensures to.Some? && to.value != "" ==> r == to.value
    ensures to.None? || to.value == "" ==> r == "(none)"
  {
    if to.None? || to.value == "" then "(none)" else to.value
  }

  /** A missing or empty origin becomes null. */
  function NormalFrom(from: Option<string>): (r: Option<string>)
    ensures r.Some? <==> from.Some? && from.value != ""
    ensures r.Some? ==> r == from
  {
    if from.None? || from.value == "" then None else from
  }

  /** The entry of a change, when it has a milestone item. */
  function EntryOf(c: Change, labels: map<string, string>): (r: Option<MilestoneEntry>)
    ensures r.Some? <==> c.milestoneItem.Some?
    ensures r.Some? ==> r.value.to != "" && (r.value.from.Some? ==> r.value.from.value != "")
    ensures r.Some? ==> r.value.author == CleanAuthor(c, "Unknown") && r.value.relativeTime == RelativeTime(c)
    ensures r.Some? && c.header.Some? && c.header.value.commentHref.Some? ==>
      r.value.commentId == c.header.value.commentHref.value
    ensures r.Some? && (c.header.None? || c.header.value.commentHref.None?) ==> r.value.commentId == ""
    ensures r.Some? ==> r.value.from == NormalFrom(RawMilestones(c.milestoneItem.value).0)
                        && r.value.to == NormalTo(RawMilestones(c.milestoneItem.value).1)
    ensures r.Some? ==> r.value.authorRole == LabelOr(labels, r.value.author, "Individual Contributor")
  {
    match c.milestoneItem
    case None => None
    case Some(item) =>
      var (from, to) := RawMilestones(item);
      var author := CleanAuthor(c, "Unknown");
      var link := if c.header.Some? && c.header.value.commentHref.Some? then c.header.value.commentHref.value else "";
      Some(MilestoneEntry(NormalFrom(from), NormalTo(to), author, LabelOr(labels, author, "Individual Contributor"),
                          RelativeTime(c), link))
  }

  /** The entry of a change as a list of at most one. */
  function EntryList(c: Change, labels: map<string, string>): (r: seq<MilestoneEntry>)
    ensures |r| == (if c.milestoneItem.Some? then 1 else 0)
    ensures forall e :: e in r ==> WellFormed(e)
  {
    match EntryOf(c, labels) case Some(e) => [e] case None => []
  }

  /** What every entry satisfies: a target is never empty, an origin never present but
      empty. */
  predicate WellFormed(e: MilestoneEntry) {
    e.to != "" && (e.from.Some? ==> e.from.value != "")
  }

  /** The number of changes with a milestone item. */
  function CountWithMilestone(cs: seq<Change>): (n: nat)
    ensures n <= |cs|
  {
    if |cs| == 0 then 0
    else CountWithMilestone(cs[..|cs| - 1]) + (if cs[|cs| - 1].milestoneItem.Some? then 1 else 0)
  }

  /** The entries in document order: exactly one per change with a milestone item. */
  function Entries(cs: seq<Change>, labels: map<string, string>): (r: seq<MilestoneEntry>)
    ensures |r| == CountWithMilestone(cs)
    ensures forall e :: e in r ==> WellFormed(e)
  {
    if |cs| == 0 then [] else Entries(cs[..|cs| - 1], labels) + EntryList(cs[|cs| - 1], labels)
  }

  /** extractMilestoneHistory: the entries, reversed. */
  function History(cs: seq<Change>, labels: map<string, string>): (r: seq<MilestoneEntry>)
    ensures |r| == CountWithMilestone(cs)
    ensures forall e :: e in r ==> WellFormed(e)
  {
    Reverse(Entries(cs, labels))
  }

  lemma EntriesAppend(cs: seq<Change>, c: Change, labels: map<string, string>)
    ensures Entries(cs + [c], labels) == Entries(cs, labels) + EntryList(c, labels)
  {
    assert (cs + [c])[..|cs|] == cs;
  }

  /** The history is newest first: the latest change's entry, if any, leads. */
  lemma NewestFirst(cs: seq<Change>, c: Change, labels: map<string, string>)
    ensures History(cs + [c], labels) == EntryList(c, labels) + History(cs, labels)
  {
    var older, newest := Entries(cs, labels), EntryList(c, labels);
    EntriesAppend(cs, c, labels);
    ReverseAppend(older, newest);
    assert Reverse(newest) == newest;
  }

  /** Two `<em>` names give the move from the first to the second, with an empty name
      standing for no milestone. */
  lemma TwoNames(c: Change, labels: map<string, string>)
    requires c.milestoneItem.Some? && |c.milestoneItem.value.ems| == 2
    ensures var e := EntryOf(c, labels).value;
      var a, b := Trim(c.milestoneItem.value.ems[0]), Trim(c.milestoneItem.value.ems[1]);
      && e.from == (if a == "" then None else Some(a))
      && e.to == (if b == "" then "(none)" else b)
  {
  }

  /** One `<em>` name is a "set to": the entry has no origin. */
  lemma OneName(c: Change, labels: map<string, string>)
    requires c.milestoneItem.Some? && |c.milestoneItem.value.ems| == 1
    ensures var e := EntryOf(c, labels).value;
      var b := Trim(c.milestoneItem.value.ems[0]);
      e.from.None? && e.to == (if b == "" then "(none)" else b)
  {
  }

  /** Without one or two `<em>` names the entry reads the text: a "changed from X to Y"
      moves from X to Y, otherwise a "set to Y" has no origin, and with neither the
      milestone is "(none)". */
  lemma TextNames(c: Change, labels: map<string, string>)
    requires c.milestoneItem.Some? && |c.milestoneItem.value.ems| != 1 && |c.milestoneItem.value.ems| != 2
    ensures var e := EntryOf(c, labels).value;
      var text := c.milestoneItem.value.text;
      var moved := FirstCapture<(string, string)>(text, ChangedFromAt);
      var setTo := FirstCapture<string>(text, SetToAt);
      && (moved.Some? ==> e.from == NormalFrom(Some(moved.value.0)) && e.to == NormalTo(Some(moved.value.1)))
      && (moved.None? && setTo.Some? ==> e.from.None? && e.to == NormalTo(setTo))
      && (moved.None? && setTo.None? ==> e.from.None? && e.to == "(none)")
  {
  }

  // ---------------------------------------------------------------------
  // Display
  // ---------------------------------------------------------------------

  /** formatMilestoneWithLink: "none" for no milestone, a link to the release page
      for a version number, the plain name otherwise. */
  datatype MilestoneView =
    | NoneLabel
    | ReleaseLink(url: string, color: string, name: string)
    | PlainName(color: string, name: string)

  /** The colour of an origin milestone and of a target one. */
  function ViewColor(isFrom: bool): string {
    if isFrom then "#666" else "#4CAF50"
  }

  function FormatMilestone(milestone: Option<string>, isFrom: bool): (r: MilestoneView)
    ensures r.NoneLabel? <==> milestone.None? || milestone.value == "" || milestone.value == "(none)"
    ensures r.ReleaseLink? <==> milestone.Some? && IsVersion(milestone.value)
    ensures r.ReleaseLink? ==> r.url == "https://make.wordpress.org/core/" + milestone.value + "/"
    ensures !r.NoneLabel? ==> r.name == milestone.value && r.color == ViewColor(isFrom)
  {
    match milestone
    case None => NoneLabel
    case Some(m) =>
      if m == "" || m == "(none)" then
        assert !IsVersion(m) by { NotVersion(m); }
        NoneLabel
      else if IsVersion(m) then ReleaseLink("https://make.wordpress.org/core/" + m + "/", ViewColor(isFrom), m)
      else PlainName(ViewColor(isFrom), m)
  }

  /** Neither "" nor "(none)" looks like a version number. */
  lemma NotVersion(m: string)
    requires m == "" || m == "(none)"
    ensures !IsVersion(m)
  {
    if m != "" {
      assert DigitRunEnd(m, 0) == 0;
    }
  }

  /** How an entry reads: "X → Y", "Milestone removed", or "Set to Y". */
  datatype MilestoneLine =
    | Moved(from: MilestoneView, to: MilestoneView)
    | MilestoneRemoved
    | SetTo(to: MilestoneView)

  function Line(e: MilestoneEntry): (r: MilestoneLine)
    ensures r.Moved? <==> e.from.Some? && e.from.value != ""
    ensures r.MilestoneRemoved? <==> (e.from.None? || e.from.value == "") && e.to == "(none)"
    ensures r.SetTo? ==> !r.to.NoneLabel? || e.to == ""
    ensures r.Moved? ==> r.from == FormatMilestone(e.from, true) && r.to == FormatMilestone(Some(e.to), false)
  {
    if e.from.Some? && e.from.value != "" then
      Moved(FormatMilestone(e.from, true), FormatMilestone(Some(e.to), false))
    else if e.to == "(none)" then MilestoneRemoved
    else SetTo(FormatMilestone(Some(e.to), false))
  }

  /** A "set to" line never shows "none": an entry's target is never empty. */
  lemma SetToNamesMilestone(e: MilestoneEntry)
    requires WellFormed(e) && Line(e).SetTo?
    ensures !Line(e).to.NoneLabel?
  {
  }
}
