/**
 How the sidebar of content/trac-sidebar.js arranges itself: which
 sections the user's preferences switch on, the order each is given, the
 ascending sort they are appended in, where the late authority legend is
 slotted in, how the legend lists roles, and the short labels it prints.
 */
module SidebarLayout {
  import opened Text
  import opened Objects
  import opened Sorting
  import opened Roles

  /** One entry of `config.sidebarSections`. */
  datatype SectionPref = SectionPref(id: string, enabled: bool, order: real)

  // ---------------------------------------------------------------------
  // Preferences
  // ---------------------------------------------------------------------

  /** The position of the first preference for `id`, as `Array.prototype.find` sees it. */
  function FirstWithId(ps: seq<SectionPref>, id: string, from: nat): (r: Option<nat>)
    requires from <= |ps|
    ensures r.Some? ==> from <= r.value < |ps| && ps[r.value].id == id
    ensures r.Some? ==> forall j :: from <= j < r.value ==> ps[j].id != id
    ensures r.None? ==> forall j :: from <= j < |ps| ==> ps[j].id != id
    decreases |ps| - from
  {
    if from == |ps| then None
    else if ps[from].id == id then Some(from)
    else FirstWithId(ps, id, from + 1)
  }

  /** isSectionEnabled. `prefs` is `config.sidebarSections`, none when the config or the
      list is missing. A section is off exactly when the first preference naming it is
      switched off. */
  function IsSectionEnabled(id: string, prefs: Option<seq<SectionPref>>): (r: bool)
    ensures !r <==> prefs.Some? && exists j :: (0 <= j < |prefs.value| && prefs.value[j].id == id
                                               && !prefs.value[j].enabled
                                               && forall i :: 0 <= i < j ==> prefs.value[i].id != id)
  {
    match prefs
    case None => true
    case Some(ps) =>
      match FirstWithId(ps, id, 0)
      case Some(j) => ps[j].enabled
      case None => true
  }

  /** The order map used without preferences. */
  const DefaultOrder: Object<real> := [
    ("quick-info", 0.0), ("release-schedule", 1.0), ("recent-comments", 2.0), ("milestone-timeline", 3.0),
    ("keyword-history", 4.0), ("maintainers", 5.0), ("keywords", 6.0)
  ]

  /** The (id, order) assignments `forEach` makes, in list order. */
  function OrderPairs(ps: seq<SectionPref>): (r: seq<(string, real)>)
    ensures |r| == |ps| && forall i :: 0 <= i < |ps| ==> r[i] == (ps[i].id, ps[i].order)
  {
    seq(|ps|, i requires 0 <= i < |ps| => (ps[i].id, ps[i].order))
  }

  /** getSectionOrder: the default map without preferences; otherwise every listed id
      mapped to the order of its last preference, ids in order of first mention. */
  function GetSectionOrder(prefs: Option<seq<SectionPref>>): (r: Object<real>)
    ensures UniqueKeys(r)
    ensures prefs.None? ==> r == DefaultOrder
    ensures prefs.Some? ==> forall id :: Get(r, id) == LastValue(OrderPairs(prefs.value), id)
  {
    match prefs
    case None =>
      assert UniqueKeys(DefaultOrder);
      DefaultOrder
    case Some(ps) =>
      forall id ensures Get(SetAll([], OrderPairs(ps)), id) == LastValue(OrderPairs(ps), id) {
        FromScratch(OrderPairs(ps), id);
      }
      FromScratch(OrderPairs(ps), "");
      SetAll([], OrderPairs(ps))
  }

  /** A later preference for the same section overrides an earlier one. */
  lemma LastPreferenceWins(ps: seq<SectionPref>, p: SectionPref)
    ensures Get(GetSectionOrder(Some(ps + [p])), p.id) == Some(p.order)
  {
    assert OrderPairs(ps + [p])[|ps|] == (p.id, p.order);
  }

  /** Without preferences, keyword history takes its default 4 rather than its
      fallback 3.5, and keywords their default 6 rather than 7. */
  lemma DefaultOrdersStored()
    ensures OrderOr(GetSectionOrder(None), "keyword-history", 3.5) == 4.0
    ensures OrderOr(GetSectionOrder(None), "keywords", 7.0) == 6.0
  {
    KeyIndexFirst(DefaultOrder, "keyword-history", Some(4));
    KeyIndexFirst(DefaultOrder, "keywords", Some(6));
  }

  /** The defaults do not name the legend, which falls back to 4. */
  lemma DefaultOrdersMissing()
    ensures LegendTarget(GetSectionOrder(None)) == 4.0
  {
    KeyIndexFirst(DefaultOrder, "authority-legend", None);
  }

  /** `sectionOrder[id] || fallback`: the stored order unless it is missing or 0. */
  function OrderOr(orders: Object<real>, id: string, fallback: real): (r: real)
    ensures Get(orders, id).Some? && Get(orders, id).value != 0.0 ==> r == Get(orders, id).value
    ensures Get(orders, id).None? || Get(orders, id).value == 0.0 ==> r == fallback
  {
    match Get(orders, id)
    case Some(v) => if v != 0.0 then v else fallback
    case None => fallback
  }

  // ---------------------------------------------------------------------
  // Rendering order
  // ---------------------------------------------------------------------

  /** The sections that go through the sort, in the order the code pushes them, with the
      order each falls back to. Quick info goes to the sticky header instead, and the
      keyword-validation section sits in a comment, so it is never pushed. */
  const Candidates: seq<(string, real)> := [
    ("release-schedule", 1.0), ("recent-comments", 2.0), ("milestone-timeline", 3.0), ("keyword-history", 3.5),
    ("maintainers", 5.0), ("keywords", 7.0)
  ]

  /** The validation section is never among the rendered ones, whatever the preferences
      and the page. */
  lemma ValidationNeverRendered(prefs: Option<seq<SectionPref>>, hasContent: string -> bool)
    ensures forall p :: p in Layout(prefs, hasContent) ==> p.id != "keyword-validation"
  {
    var v := "keyword-validation";
    assert forall i :: 0 <= i < |Candidates| ==> Candidates[i].0 != v by {
      assert v[0] == 'k' && v[8] == 'v';
    }
    NotPlanned(Candidates, prefs, hasContent, v);
    LayoutMembers(prefs, hasContent);
  }

  /** A section that is no candidate is never queued. */
  lemma NotPlanned(cands: seq<(string, real)>, prefs: Option<seq<SectionPref>>, hasContent: string -> bool, id: string)
    requires forall i :: 0 <= i < |cands| ==> cands[i].0 != id
    ensures forall p :: p in Planned(cands, prefs, hasContent) ==> p.id != id
  {
    forall p | p in Planned(cands, prefs, hasContent) ensures p.id != id {
      assert FromCandidate(cands, prefs, p);
    }
  }

  /** The rendered sections are the queued ones. */
  lemma LayoutMembers(prefs: Option<seq<SectionPref>>, hasContent: string -> bool)
    ensures forall p :: p in Layout(prefs, hasContent) <==> p in Planned(Candidates, prefs, hasContent)
  {
    var r := Layout(prefs, hasContent);
    var planned := Planned(Candidates, prefs, hasContent);
    assert multiset(r) == multiset(planned);
    forall p ensures p in r <==> p in planned {
      assert p in r <==> p in multiset(r);
      assert p in planned <==> p in multiset(planned);
    }
  }

  /** A section queued for rendering. */
  datatype Placed = Placed(id: string, order: real)

  function PlacedOrder(p: Placed): real { p.order }

  /** The sections of `cands` that are switched on and have something to show (a
      condition on the page, given as `hasContent`), each with its order. */
  function Planned(cands: seq<(string, real)>, prefs: Option<seq<SectionPref>>, hasContent: string -> bool)
    : (r: seq<Placed>)
    ensures |r| <= |cands|
    ensures forall p :: p in r ==> IsSectionEnabled(p.id, prefs) && hasContent(p.id)
    ensures forall i :: 0 <= i < |cands| && IsSectionEnabled(cands[i].0, prefs) && hasContent(cands[i].0) ==>
      Placed(cands[i].0, OrderOr(GetSectionOrder(prefs), cands[i].0, cands[i].1)) in r
    ensures forall p :: p in r ==> FromCandidate(cands, prefs, p)
  {
    if |cands| == 0 then []
    else
      var (id, fallback) := cands[0];
      var rest := Planned(cands[1..], prefs, hasContent);
      assert forall i :: 1 <= i < |cands| ==> cands[i] == cands[1..][i - 1];
      FromTail(cands, prefs);
      if IsSectionEnabled(id, prefs) && hasContent(id) then
        assert FromCandidate(cands, prefs, Placed(id, OrderOr(GetSectionOrder(prefs), id, fallback))) by {
          assert cands[0] == (id, fallback);
        }
        [Placed(id, OrderOr(GetSectionOrder(prefs), id, fallback))] + rest
      else rest
  }

  /** `p` is some candidate with the order it is given. */
  predicate FromCandidate(cands: seq<(string, real)>, prefs: Option<seq<SectionPref>>, p: Placed) {
    exists i :: 0 <= i < |cands| && p == Placed(cands[i].0, OrderOr(GetSectionOrder(prefs), cands[i].0, cands[i].1))
  }

  lemma FromTail(cands: seq<(string, real)>, prefs: Option<seq<SectionPref>>)
    requires |cands| > 0
    ensures forall p :: FromCandidate(cands[1..], prefs, p) ==> FromCandidate(cands, prefs, p)
  {
    forall p | FromCandidate(cands[1..], prefs, p) ensures FromCandidate(cands, prefs, p) {
      var i :| 0 <= i < |cands[1..]| && p == Placed(cands[1..][i].0, OrderOr(GetSectionOrder(prefs), cands[1..][i].0, cands[1..][i].1));
      assert cands[1..][i] == cands[i + 1];
    }
  }

  /** The sections in the order they are appended: ascending by order, those with equal
      orders in the order they were queued. */
  function Layout(prefs: Option<seq<SectionPref>>, hasContent: string -> bool): (r: seq<Placed>)
    ensures multiset(r) == multiset(Planned(Candidates, prefs, hasContent))
    ensures forall i, j :: 0 <= i < j < |r| ==> r[i].order <= r[j].order
    ensures forall v :: OnlyKey(r, PlacedOrder, v) == OnlyKey(Planned(Candidates, prefs, hasContent), PlacedOrder, v)
  {
    var planned := Planned(Candidates, prefs, hasContent);
    RealLessOrder();
    var r := SortBy(planned, PlacedOrder, RealLess);
    forall v ensures OnlyKey(r, PlacedOrder, v) == OnlyKey(planned, PlacedOrder, v) {
      SortByStable(planned, PlacedOrder, RealLess, v);
    }
    assert forall i, j :: 0 <= i < j < |r| ==> !RealLess(PlacedOrder(r[j]), PlacedOrder(r[i]));
    r
  }

  // ---------------------------------------------------------------------
  // The authority legend
  // ---------------------------------------------------------------------

  /** `sectionOrder['authority-legend'] || 4`. */
  function LegendTarget(orders: Object<real>): real {
    OrderOr(orders, "authority-legend", 4.0)
  }

  /** The section id of a child of the sidebar content: its element id without the
      "wpt-section-" prefix, none when that leaves nothing. */
  function SectionIdOf(elementId: string): (r: Option<string>)
    ensures elementId == "" ==> r.None?
    ensures r.Some? ==> r.value != ""
  {
    if elementId == "" then None
    else
      var id := ReplaceFirst(elementId, "wpt-section-", "");
      if id == "" then None else Some(id)
  }

  /** The child is a section whose stored order lies beyond `target`. Only the raw stored
      order counts here, without the fallbacks used for rendering. */
  predicate Beyond(orders: Object<real>, elementId: string, target: real) {
    SectionIdOf(elementId).Some? && Get(orders, SectionIdOf(elementId).value).Some?
    && Get(orders, SectionIdOf(elementId).value).value > target
  }

  /** The element id of a section gives its section id back. */
  lemma SectionIdOfSection(id: string)
    requires id != ""
    ensures SectionIdOf("wpt-section-" + id) == Some(id)
  {
    var e := "wpt-section-" + id;
    assert OccursAt(e, "wpt-section-", 0) by { assert e[..12] == "wpt-section-"; }
    assert IndexOf(e, "wpt-section-") == Some(0);
    assert e[12..] == id;
    assert e[..0] + "" + e[12..] == id;
  }

  /** The index of the first child beyond `target`, or the number of children. */
  function LegendSlot(children: seq<string>, orders: Object<real>, target: real, from: nat): (r: nat)
    requires from <= |children|
    ensures from <= r <= |children|
    ensures forall j :: from <= j < r ==> !Beyond(orders, children[j], target)
    ensures r < |children| ==> Beyond(orders, children[r], target)
    decreases |children| - from
  {
    if from == |children| then from
    else if Beyond(orders, children[from], target) then from
    else LegendSlot(children, orders, target, from + 1)
  }

  const LegendElementId: string := "wpt-section-authority-legend"

  /** The children of the content once the legend is inserted before the first child
      beyond its target order, or appended when there is none. */
  function WithLegend(children: seq<string>, orders: Object<real>): (r: seq<string>)
    ensures |r| == |children| + 1
    ensures var k := LegendSlot(children, orders, LegendTarget(orders), 0);
      && r[k] == LegendElementId
      && r[..k] + r[k + 1..] == children
      && (forall j :: 0 <= j < k ==> !Beyond(orders, r[j], LegendTarget(orders)))
      && (k + 1 < |r| ==> Beyond(orders, r[k + 1], LegendTarget(orders)))
  {
    var k := LegendSlot(children, orders, LegendTarget(orders), 0);
    var r := children[..k] + [LegendElementId] + children[k..];
    assert r[..k] == children[..k];
    assert r[k + 1..] == children[k..];
    assert children[..k] + children[k..] == children;
    r
  }

  /** addAuthorityLegend: nothing happens without a sidebar or with the legend switched
      off. */
  function AddLegend(sidebarPresent: bool, prefs: Option<seq<SectionPref>>, children: seq<string>)
    : (r: seq<string>)
    ensures !sidebarPresent || !IsSectionEnabled("authority-legend", prefs) ==> r == children
    ensures sidebarPresent && IsSectionEnabled("authority-legend", prefs) ==>
      |r| == |children| + 1 && LegendElementId in r
  {
    if !sidebarPresent || !IsSectionEnabled("authority-legend", prefs) then children
    else WithLegend(children, GetSectionOrder(prefs))
  }

  /** The legend's roles sorted by rank: `ROLE_HIERARCHY[role] || 5`, or 5 for every role
      without the table. */
  function RankKey(rolesLoaded: bool, role: string): real {
    if rolesLoaded then RankOr(role, 5) as real else 5.0
  }

  /** The sort key of a legend entry: its role's rank. */
  function RoleKey(rolesLoaded: bool): ((string, nat)) -> real {
    (e: (string, nat)) => RankKey(rolesLoaded, e.0)
  }

  /** The legend's roles by rank, tied roles in the order they were first counted, as
      the stable `Array.prototype.sort` leaves them. */
  function SortedRoles(stats: Object<nat>, rolesLoaded: bool): (r: Object<nat>)
    ensures multiset(r) == multiset(stats)
    ensures forall i, j :: 0 <= i < j < |r| ==> RankKey(rolesLoaded, r[i].0) <= RankKey(rolesLoaded, r[j].0)
    ensures forall v :: OnlyKey(r, RoleKey(rolesLoaded), v) == OnlyKey(stats, RoleKey(rolesLoaded), v)
  {
    RealLessOrder();
    var key := RoleKey(rolesLoaded);
    var r := SortBy(stats, key, RealLess);
    forall v ensures OnlyKey(r, key, v) == OnlyKey(stats, key, v) {
      SortByStable(stats, key, RealLess, v);
    }
    assert forall i, j :: 0 <= i < j < |r| ==> !RealLess(key(r[j]), key(r[i]));
    r
  }

  /** Without the rank table every role ties, and the legend keeps the order in which
      the roles were first counted. */
  lemma UnrankedKeepOrder(stats: Object<nat>)
    ensures SortedRoles(stats, false) == stats
  {
    RealLessOrder();
    var key := RoleKey(false);
    assert Sorted(stats, key, RealLess);
    SortBySorted(stats, key, RealLess);
  }

  // ---------------------------------------------------------------------
  // Labels
  // ---------------------------------------------------------------------

  const FallbackRoleColors: map<string, string> := map[
    "Project Lead" := "#e91e63",
    "Lead Developer" := "#9c27b0",
    "Core Committer" := "#3f51b5",
    "Emeritus Committer" := "#ff9800",
    "Component Maintainer" := "#009688",
    "Lead Tester" := "#e91e63",
    "Themes Committer" := "#00bcd4",
    "Individual Contributor" := "#757575"
  ]

  /** getRoleColor: the colour of ROLE_COLORS, or of the built-in palette when that table
      is missing; #757575 for a role neither knows. */
  function RoleColor(colorsLoaded: bool, role: string): (r: string)
    ensures colorsLoaded && role in RoleColors && RoleColors[role] != "" ==> r == RoleColors[role]
    ensures !colorsLoaded && role in FallbackRoleColors ==> r == FallbackRoleColors[role]
    ensures (colorsLoaded && (role !in RoleColors || RoleColors[role] == "")) || (!colorsLoaded && role !in FallbackRoleColors)
            ==> r == "#757575"
  {
    var colors := if colorsLoaded then RoleColors else FallbackRoleColors;
    if role in colors && colors[role] != "" then colors[role] else "#757575"
  }

  /** "N comment" or "N comments" for a role's count. */
  function CountLabel(count: nat): (r: string)
    ensures r == Decimal(count) + (if count > 1 then " comments" else " comment")
  {
    Decimal(count) + " comment" + (if count > 1 then "s" else "")
  }

  /** The distance to the next release in words. */
  function DaysLabel(days: int): (r: string)
    ensures days == 0 ==> r == "Today"
    ensures days == 1 ==> r == "Tomorrow"
    ensures days < 0 ==> r == Decimal(-days) + " days ago"
    ensures days > 1 ==> r == "in " + Decimal(days) + " days"
  {
    if days == 0 then "Today"
    else if days == 1 then "Tomorrow"
    else if days < 0 then Decimal(-days) + " days ago"
    else "in " + Decimal(days) + " days"
  }

  /** Two printed numbers followed by text that starts with a non-digit agree only when
      the numbers and the texts do. */
  lemma DecimalThen(a: nat, x: string, b: nat, y: string)
    requires |x| > 0 && !IsDigit(x[0]) && |y| > 0 && !IsDigit(y[0])
    requires Decimal(a) + x == Decimal(b) + y
    ensures a == b && x == y
  {
    var da, db := Decimal(a), Decimal(b);
    assert da == (da + x)[..|da|];
    assert db == (db + y)[..|db|];
    DecimalRoundTrip(a);
    DecimalRoundTrip(b);
    assert x == (da + x)[|da|..];
  }

  /** Different counts get different labels. */
  lemma CountLabelInjective(a: nat, b: nat)
    requires CountLabel(a) == CountLabel(b)
    ensures a == b
  {
    var x := if a > 1 then " comments" else " comment";
    var y := if b > 1 then " comments" else " comment";
    DecimalThen(a, x, b, y);
  }

  /** Different day counts get different labels. */
  lemma DaysLabelInjective(a: int, b: int)
    requires DaysLabel(a) == DaysLabel(b)
    ensures a == b
  {
    var la := DaysLabel(a);
    if a < 0 && b < 0 {
      DecimalThen(-a, " days ago", -b, " days ago");
    } else if a > 1 && b > 1 {
      assert la[3..] == Decimal(a) + " days";
      assert DaysLabel(b)[3..] == Decimal(b) + " days";
      DecimalThen(a, " days", b, " days");
    } else if a != b {
      LabelShapes(a);
      LabelShapes(b);
    }
  }

  /** The first character tells the four kinds of label apart. */
  lemma LabelShapes(d: int)
    ensures d == 0 ==> DaysLabel(d)[0] == 'T' && DaysLabel(d)[1] == 'o'
    ensures d == 1 ==> DaysLabel(d)[0] == 'T' && DaysLabel(d)[1] == 'o' && |DaysLabel(d)| == 8
    ensures d < 0 ==> IsDigit(DaysLabel(d)[0])
    ensures d > 1 ==> DaysLabel(d)[0] == 'i'
  {
  }
}
