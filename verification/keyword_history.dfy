/**
 The two keyword extractors of content/trac-sidebar.js.

 Each `li.trac-field-keywords` item reads like "Keywords has-patch added;
 needs-testing removed": the text after the leading "Keywords" is split at
 ';' into action segments, and each `<em>` name of the item that a segment
 mentions is taken as added (when the segment says "added") or removed.

 - `History` keeps, per lowercased keyword, the last change that added it.
 - `Timeline` lists, per change, the keywords it added and removed.
 */
module KeywordHistory {
  import opened Text
  import opened Patterns
  import opened ChangeLog
  import opened Objects

  /** The trimmed texts of an item's `<em>` names. */
  function EmNames(item: FieldItem): (r: seq<string>)
    ensures |r| == |item.ems|
    ensures forall i :: 0 <= i < |r| ==> r[i] == Trim(item.ems[i])
  {
    TrimAll(item.ems)
  }

  /** The action segments of an item: its text without the leading "Keywords" and
      spaces, trimmed, split at ';', each piece trimmed. */
  function Segments(item: FieldItem): (r: seq<string>)
    ensures |r| >= 1
    ensures forall i :: 0 <= i < |r| ==> IsTrimmed(r[i])
  {
    var parts := Split(Trim(StripKeywordsPrefix(item.text)), ';');
    TrimAllTrimmedEach(parts);
    TrimAll(parts)
  }

  /** The names a segment mentions, in order. */
  function Mentioned(segment: string, names: seq<string>): (r: seq<string>)
    ensures forall x :: x in r <==> x in names && Contains(segment, x)
  {
    if |names| == 0 then []
    else (if Contains(segment, names[0]) then [names[0]] else []) + Mentioned(segment, names[1..])
  }

  /** One recorded addition. */
  datatype Event = Event(date: string, commentLink: Option<string>, author: string)

  /** What a change's additions are recorded with: its header time, a link to it, and
      its author ("unknown" when it has none). */
  function EventOf(c: Change): Event {
    Event(HeaderTime(c), Anchor(c.id), CleanAuthor(c, "unknown"))
  }

  /** Some segment of `segs` says "added" and mentions `x`. */
  predicate AddedIn(segs: seq<string>, x: string) {
    |segs| > 0 && ((Contains(segs[0], "added") && Contains(segs[0], x)) || AddedIn(segs[1..], x))
  }

  /** The names the segments record as added, segment by segment. A segment that says
      "removed" as well as "added" is taken as an addition. */
  function AddsFrom(segs: seq<string>, names: seq<string>): (r: seq<string>)
    ensures forall x :: x in r <==> x in names && AddedIn(segs, x)
  {
    if |segs| == 0 then []
    else (if Contains(segs[0], "added") then Mentioned(segs[0], names) else []) + AddsFrom(segs[1..], names)
  }

  /** The names an item records as added. */
  function ItemAdds(item: FieldItem): (r: seq<string>)
    ensures forall x :: x in r <==> x in EmNames(item) && AddedIn(Segments(item), x)
  {
    AddsFrom(Segments(item), EmNames(item))
  }

  /** Some keyword item of `items` records `x` as added. */
  predicate AddedByItem(items: seq<FieldItem>, x: string) {
    |items| > 0 && (x in ItemAdds(items[0]) || AddedByItem(items[1..], x))
  }

  /** The names a change records as added, over all its keyword items. */
  function ChangeAdds(items: seq<FieldItem>): (r: seq<string>)
    ensures forall x :: x in r <==> AddedByItem(items, x)
  {
    if |items| == 0 then [] else ItemAdds(items[0]) + ChangeAdds(items[1..])
  }

  /** The keys a change adds under: its added names, lowercased, in order. */
  function AddedKeys(c: Change): (r: seq<string>)
    ensures forall x :: AddedByItem(c.keywordItems, x) ==> ToLower(x) in r
    ensures forall k :: k in r ==> exists x :: AddedByItem(c.keywordItems, x) && ToLower(x) == k
  {
    LowerAll(ChangeAdds(c.keywordItems))
  }

  function LowerAll(xs: seq<string>): (r: seq<string>)
    ensures forall x :: x in xs ==> ToLower(x) in r
    ensures forall k :: k in r ==> exists x :: x in xs && ToLower(x) == k
  {
    if |xs| == 0 then [] else [ToLower(xs[0])] + LowerAll(xs[1..])
  }

  // ---------------------------------------------------------------------
  // The history object both extractors build
  // ---------------------------------------------------------------------

  /** The assignments `history[k] = e` of one change, in order. */
  function Assignments(keys: seq<string>, e: Event): (r: Object<Event>)
    ensures Keys(r) == keys
    ensures forall i :: 0 <= i < |r| ==> r[i].1 == e
  {
    seq(|keys|, i requires 0 <= i < |keys| => (keys[i], e))
  }

  /** Some change of `cs` assigns key `k`. */
  predicate EverAssigned(cs: seq<Change>, keys: Change -> seq<string>, k: string) {
    exists i :: 0 <= i < |cs| && k in keys(cs[i])
  }

  /** The assignments of one change give every key it assigns the change's event. */
  lemma AssignmentsLast(keys: seq<string>, e: Event, k: string)
    ensures LastValue(Assignments(keys, e), k) == if k in keys then Some(e) else None
  {
    LastValueConst(Assignments(keys, e), k, e);
  }

  lemma EverAssignedLast(cs: seq<Change>, keys: Change -> seq<string>, k: string)
    requires |cs| > 0
    ensures EverAssigned(cs, keys, k) <==> EverAssigned(cs[..|cs| - 1], keys, k) || k in keys(cs[|cs| - 1])
  {
    assert forall i :: 0 <= i < |cs| - 1 ==> cs[..|cs| - 1][i] == cs[i];
  }

  /** A history object: for each change in document order, `history[k] = ev(c)` for
      every key `k` of `keys(c)`. It holds each assigned key once, and nothing else. */
  function Record(cs: seq<Change>, keys: Change -> seq<string>, ev: Change -> Event): (r: Object<Event>)
    ensures UniqueKeys(r)
    ensures forall k :: Get(r, k).Some? <==> EverAssigned(cs, keys, k)
    decreases |cs|
  {
    if |cs| == 0 then []
    else
      var p := cs[..|cs| - 1];
      var c := cs[|cs| - 1];
      var r := SetAll(Record(p, keys, ev), Assignments(keys(c), ev(c)));
      forall k ensures Get(r, k).Some? <==> EverAssigned(cs, keys, k) {
        AssignmentsLast(keys(c), ev(c), k);
        EverAssignedLast(cs, keys, k);
      }
      r
  }

  /** Last assignment wins: the entry for `k` is the event of the latest change that
      assigns `k`. */
  lemma {:induction false} LastAssignmentWins(cs: seq<Change>, keys: Change -> seq<string>, ev: Change -> Event,
                                              i: nat, k: string)
    requires i < |cs| && k in keys(cs[i])
    requires forall j :: i < j < |cs| ==> k !in keys(cs[j])
    ensures Get(Record(cs, keys, ev), k) == Some(ev(cs[i]))
    decreases |cs|
  {
    var p := cs[..|cs| - 1];
    var c := cs[|cs| - 1];
    AssignmentsLast(keys(c), ev(c), k);
    if i < |cs| - 1 {
      assert p[i] == cs[i];
      LastAssignmentWins(p, keys, ev, i, k);
    }
  }

  /** A change that assigns nothing leaves the history as it was. */
  lemma NothingAssigned(cs: seq<Change>, c: Change, keys: Change -> seq<string>, ev: Change -> Event)
    requires keys(c) == []
    ensures Record(cs + [c], keys, ev) == Record(cs, keys, ev)
  {
    assert (cs + [c])[..|cs|] == cs;
  }

  // ---------------------------------------------------------------------
  // extractKeywordHistory
  // ---------------------------------------------------------------------

  /** extractKeywordHistory: per lowercased keyword, the event of the latest change
      that added it; keys in the order they were first added. */
  function History(cs: seq<Change>): (r: Object<Event>)
    ensures UniqueKeys(r)
    ensures forall k :: Get(r, k).Some? <==> exists i :: 0 <= i < |cs| && k in AddedKeys(cs[i])
  {
    Record(cs, AddedKeys, EventOf)
  }

  /** Last add wins: the entry for `k` is the event of the latest change that added `k`. */
  lemma LastAddWins(cs: seq<Change>, i: nat, k: string)
    requires i < |cs| && k in AddedKeys(cs[i])
    requires forall j :: i < j < |cs| ==> k !in AddedKeys(cs[j])
    ensures Get(History(cs), k) == Some(EventOf(cs[i]))
  {
    LastAssignmentWins(cs, AddedKeys, EventOf, i, k);
  }

  /** Every key of the history is lowercase. */
  lemma HistoryKeysLowerCase(cs: seq<Change>, k: string)
    requires Get(History(cs), k).Some?
    ensures IsLowerCase(k)
  {
    var i :| 0 <= i < |cs| && k in AddedKeys(cs[i]);
    var x :| AddedByItem(cs[i].keywordItems, x) && ToLower(x) == k;
    ToLowerIsLower(x);
  }

  /** Only additions are recorded: a change whose segments never say "added" leaves the
      history as it was. */
  lemma RemovalsIgnored(cs: seq<Change>, c: Change)
    requires forall i :: 0 <= i < |c.keywordItems| ==> NoAddition(c.keywordItems[i])
    ensures History(cs + [c]) == History(cs)
  {
    NothingAdded(c.keywordItems);
    NothingAssigned(cs, c, AddedKeys, EventOf);
  }

  // ---------------------------------------------------------------------
  // extractKeywordHistory of content/test-simple.js (the older extractor)
  // ---------------------------------------------------------------------

  /** What a change item says about keywords: the words of the capture and the action of
      the first match of `Keywords?\s+(.+?)\s+(added|removed)`. Only an item whose text contains "Keywords" and "added" or "removed"
      is read at all. The words are the trimmed capture split at runs of spaces, without
      dropping empty pieces. */
  function OldItemKeywords(text: string): (r: Option<(seq<string>, KeywordAction)>)
    ensures r.Some? <==> (Contains(text, "Keywords") && (Contains(text, "added") || Contains(text, "removed"))
                          && FirstCapture<(string, KeywordAction)>(text, OldKeywordAt).Some?)
    ensures r.Some? ==> r.value.1 == FirstCapture<(string, KeywordAction)>(text, OldKeywordAt).value.1
    ensures r.Some? ==> |r.value.0| >= 1 && forall k :: 0 <= k < |r.value.0| ==> NoSpace(r.value.0[k])
  {
    if !Contains(text, "Keywords") || !(Contains(text, "added") || Contains(text, "removed")) then None
    else match FirstCapture<(string, KeywordAction)>(text, OldKeywordAt)
      case None => None
      case Some((capture, action)) => Some((SplitOnSpaces(Trim(capture)), action))
  }

  /** The keys the older extractor records for a change's items: the lowercased words of
      every item that says "added", in order. */
  function OldAddedKeysOf(items: seq<string>): (r: seq<string>)
    ensures forall k :: k in r ==> IsLowerCase(k)
  {
    if |items| == 0 then []
    else
      var mine := match OldItemKeywords(items[0])
        case Some((words, Added)) => LowerAll(words)
        case _ => [];
      assert forall k :: k in mine ==> IsLowerCase(k) by {
        forall k | k in mine ensures IsLowerCase(k) {
          var x :| ToLower(x) == k;
          ToLowerIsLower(x);
        }
      }
      mine + OldAddedKeysOf(items[1..])
  }

  function OldAddedKeys(c: Change): (r: seq<string>)
    ensures forall k :: k in r ==> IsLowerCase(k)
  {
    OldAddedKeysOf(c.items)
  }

  /** The older extractor's event: the header time, the link, and the whole trimmed
      `.trac-author` text (badges and role labels included), or "unknown". */
  function OldEventOf(c: Change): (r: Event)
    ensures r.date == HeaderTime(c) && r.commentLink == Anchor(c.id)
    ensures c.tracAuthor.Some? ==> r.author == Trim(c.tracAuthor.value.text)
    ensures c.tracAuthor.None? ==> r.author == "unknown"
  {
    Event(HeaderTime(c), Anchor(c.id), if c.tracAuthor.Some? then Trim(c.tracAuthor.value.text) else "unknown")
  }

  /** extractKeywordHistory of content/test-simple.js. */
  function OldHistory(cs: seq<Change>): (r: Object<Event>)
    ensures UniqueKeys(r)
    ensures forall k :: Get(r, k).Some? <==> exists i :: 0 <= i < |cs| && k in OldAddedKeys(cs[i])
    ensures forall k :: Get(r, k).Some? ==> IsLowerCase(k)
  {
    Record(cs, OldAddedKeys, OldEventOf)
  }

  lemma OldLastAddWins(cs: seq<Change>, i: nat, k: string)
    requires i < |cs| && k in OldAddedKeys(cs[i])
    requires forall j :: i < j < |cs| ==> k !in OldAddedKeys(cs[j])
    ensures Get(OldHistory(cs), k) == Some(OldEventOf(cs[i]))
  {
    LastAssignmentWins(cs, OldAddedKeys, OldEventOf, i, k);
  }

  /** An item whose first match says "removed" (or that does not match) records nothing. */
  lemma {:induction false} OldRemovalsIgnored(items: seq<string>)
    requires forall i :: 0 <= i < |items| ==>
      OldItemKeywords(items[i]).None? || OldItemKeywords(items[i]).value.1 == Removed
    ensures OldAddedKeysOf(items) == []
    decreases |items|
  {
    if |items| > 0 {
      OldRemovalsIgnored(items[1..]);
    }
  }

  /** No segment of the item says "added". */
  predicate NoAddition(item: FieldItem) {
    forall j :: 0 <= j < |Segments(item)| ==> !Contains(Segments(item)[j], "added")
  }

  lemma {:induction false} NothingAdded(items: seq<FieldItem>)
    requires forall i :: 0 <= i < |items| ==> NoAddition(items[i])
    ensures ChangeAdds(items) == []
    decreases |items|
  {
    if |items| > 0 {
      assert NoAddition(items[0]);
      NoAddingSegment(Segments(items[0]), EmNames(items[0]));
      assert forall i :: 0 <= i < |items| - 1 ==> items[1..][i] == items[i + 1];
      NothingAdded(items[1..]);
    }
  }

  lemma {:induction false} NoAddingSegment(segs: seq<string>, names: seq<string>)
    requires forall j :: 0 <= j < |segs| ==> !Contains(segs[j], "added")
    ensures AddsFrom(segs, names) == []
    decreases |segs|
  {
    if |segs| > 0 {
      NoAddingSegment(segs[1..], names);
    }
  }

  // ---------------------------------------------------------------------
  // extractKeywordChangeTimeline
  // ---------------------------------------------------------------------

  /** Every (segment, name) pair of the segments and names, segment by segment. */
  function Cross(segs: seq<string>, names: seq<string>): (r: seq<(string, string)>)
    ensures forall seg, x :: (seg, x) in r <==> seg in segs && x in names
  {
    if |segs| == 0 then []
    else
      var row := seq(|names|, n requires 0 <= n < |names| => (segs[0], names[n]));
      assert forall x :: (segs[0], x) in row <==> x in names by {
        forall x | x in names ensures (segs[0], x) in row {
          var n :| 0 <= n < |names| && names[n] == x;
          assert row[n] == (segs[0], x);
        }
      }
      row + Cross(segs[1..], names)
  }

  /** The (segment, name) pairs the timeline walks through for a list of keyword items, in
      processing order. */
  function Mentions(items: seq<FieldItem>): seq<(string, string)> {
    if |items| == 0 then [] else Cross(Segments(items[0]), EmNames(items[0])) + Mentions(items[1..])
  }

  /** The added and removed lists of a change. */
  datatype Lists = Lists(added: seq<string>, removed: seq<string>)

  predicate NoDuplicates(s: seq<string>) {
    forall i, j :: 0 <= i < j < |s| ==> s[i] != s[j]
  }

  /** Some pair of `ms` is a segment that says `word` and mentions `x`. */
  ghost predicate Says(ms: seq<(string, string)>, word: string, x: string) {
    exists seg :: (seg, x) in ms && Contains(seg, word) && Contains(seg, x)
  }

  /** Some pair of `ms` is a segment that says "removed", not "added", and mentions `x`. */
  ghost predicate SaysOnlyRemoved(ms: seq<(string, string)>, x: string) {
    exists seg :: (seg, x) in ms && Contains(seg, "removed") && !Contains(seg, "added") && Contains(seg, x)
  }

  /** One name of one segment: pushed to `added` when the segment says "added" and the
      name is not there yet, else to `removed` when the segment says "removed" and the
      name is not there yet. */
  function Step(acc: Lists, segment: string, name: string): (r: Lists)
    ensures NoDuplicates(acc.added) ==> NoDuplicates(r.added)
    ensures NoDuplicates(acc.removed) ==> NoDuplicates(r.removed)
  {
    var isAdded := Contains(segment, "added");
    var isRemoved := Contains(segment, "removed");
    if (!isAdded && !isRemoved) || !Contains(segment, name) then acc
    else if isAdded && name !in acc.added then Lists(acc.added + [name], acc.removed)
    else if isRemoved && name !in acc.removed then Lists(acc.added, acc.removed + [name])
    else acc
  }

  lemma SaysSplit(ms: seq<(string, string)>, x: string)
    requires |ms| > 0
    ensures Says(ms, "added", x) <==>
      (ms[0].1 == x && Contains(ms[0].0, "added") && Contains(ms[0].0, x)) || Says(ms[1..], "added", x)
    ensures Says(ms, "removed", x) <==>
      (ms[0].1 == x && Contains(ms[0].0, "removed") && Contains(ms[0].0, x)) || Says(ms[1..], "removed", x)
    ensures SaysOnlyRemoved(ms, x) <==>
      (ms[0].1 == x && Contains(ms[0].0, "removed") && !Contains(ms[0].0, "added") && Contains(ms[0].0, x))
      || SaysOnlyRemoved(ms[1..], x)
  {
    assert forall p :: p in ms <==> p == ms[0] || p in ms[1..];
  }

  /** The timeline's walk over the pairs `ms`. */
  function Steps(acc: Lists, ms: seq<(string, string)>): (r: Lists)
    ensures NoDuplicates(acc.added) ==> NoDuplicates(r.added)
    ensures NoDuplicates(acc.removed) ==> NoDuplicates(r.removed)
    ensures forall x :: x in acc.added ==> x in r.added
    ensures forall x :: x in acc.removed ==> x in r.removed
    ensures forall x :: x in r.added ==> x in acc.added || Says(ms, "added", x)
    ensures forall x :: x in r.removed ==> x in acc.removed || Says(ms, "removed", x)
    ensures forall x :: Says(ms, "added", x) ==> x in r.added
    ensures forall x :: SaysOnlyRemoved(ms, x) ==> x in r.removed
    decreases |ms|
  {
    if |ms| == 0 then acc
    else
      var r := Steps(Step(acc, ms[0].0, ms[0].1), ms[1..]);
      forall x ensures Says(ms, "added", x) <==>
        (ms[0].1 == x && Contains(ms[0].0, "added") && Contains(ms[0].0, x)) || Says(ms[1..], "added", x)
      ensures Says(ms, "removed", x) <==>
        (ms[0].1 == x && Contains(ms[0].0, "removed") && Contains(ms[0].0, x)) || Says(ms[1..], "removed", x)
      ensures SaysOnlyRemoved(ms, x) <==>
        (ms[0].1 == x && Contains(ms[0].0, "removed") && !Contains(ms[0].0, "added") && Contains(ms[0].0, x))
        || SaysOnlyRemoved(ms[1..], x)
      {
        SaysSplit(ms, x);
      }
      r
  }

  /** `s` without repeats, each element kept where it first occurs. */
  function Dedup(s: seq<string>): (r: seq<string>)
    ensures NoDuplicates(r)
    ensures forall x :: x in r <==> x in s
    ensures forall i, j :: 0 <= i < j < |r| ==> FirstAt(s, r[i]) < FirstAt(s, r[j])
  {
    if |s| == 0 then []
    else
      var n := |s| - 1;
      var d := Dedup(s[..n]);
      assert s == s[..n] + [s[n]];
      FirstAtSnoc(s[..n], s[n]);
      if s[n] in d then d else d + [s[n]]
  }

  /** The position of the first occurrence of `x`. */
  function FirstAt(s: seq<string>, x: string): (i: nat)
    requires x in s
    ensures i < |s| && s[i] == x && x !in s[..i]
  {
    if s[0] == x then 0
    else
      assert s[1..][..FirstAt(s[1..], x)] == s[1..FirstAt(s[1..], x) + 1];
      1 + FirstAt(s[1..], x)
  }

  /** Appending an element moves no first occurrence, and gives a new one the last place. */
  lemma FirstAtSnoc(s: seq<string>, x: string)
    ensures forall y :: y in s ==> FirstAt(s + [x], y) == FirstAt(s, y)
    ensures x !in s ==> FirstAt(s + [x], x) == |s|
  {
    forall y | y in s ensures FirstAt(s + [x], y) == FirstAt(s, y) {
      var i, k := FirstAt(s + [x], y), FirstAt(s, y);
      assert (s + [x])[k] == y;
    }
  }

  /** The pair's segment says "added" and mentions the name. */
  predicate Adds(p: (string, string)) {
    Contains(p.0, "added") && Contains(p.0, p.1)
  }

  /** The pair's segment says "removed" and mentions the name, and either does not say
      "added" or the name is among `before`, the names added earlier. */
  predicate Removes(p: (string, string), before: seq<string>) {
    Contains(p.0, "removed") && Contains(p.0, p.1) && (!Contains(p.0, "added") || p.1 in before)
  }

  /** The names of the pairs that add, in walking order, repeats included. */
  function AddMentions(ms: seq<(string, string)>): (r: seq<string>)
    ensures forall x :: x in r ==> exists k :: 0 <= k < |ms| && ms[k].1 == x && Adds(ms[k])
  {
    if |ms| == 0 then []
    else
      var n := |ms| - 1;
      AddMentions(ms[..n]) + (if Adds(ms[n]) then [ms[n].1] else [])
  }

  /** The names of the pairs that remove, in walking order, repeats included. */
  function RemoveMentions(ms: seq<(string, string)>): (r: seq<string>)
    ensures forall x :: x in r ==> exists k :: 0 <= k < |ms| && ms[k].1 == x && Removes(ms[k], AddMentions(ms[..k]))
  {
    if |ms| == 0 then []
    else
      var n := |ms| - 1;
      var rest := RemoveMentions(ms[..n]);
      assert forall k :: 0 <= k < n ==> ms[..n][k] == ms[k] && ms[..n][..k] == ms[..k];
      rest + (if Removes(ms[n], AddMentions(ms[..n])) then [ms[n].1] else [])
  }

  /** The walk over one more pair is one more step. */
  lemma {:induction false} StepsSnoc(acc: Lists, ms: seq<(string, string)>, p: (string, string))
    ensures Steps(acc, ms + [p]) == Step(Steps(acc, ms), p.0, p.1)
    decreases |ms|
  {
    if |ms| > 0 {
      assert (ms + [p])[0] == ms[0];
      assert (ms + [p])[1..] == ms[1..] + [p];
      StepsSnoc(Step(acc, ms[0].0, ms[0].1), ms[1..], p);
    }
  }

  /** Appending a name already present changes nothing; a new one goes last. */
  lemma DedupSnoc(s: seq<string>, x: string)
    ensures Dedup(s + [x]) == if x in s then Dedup(s) else Dedup(s) + [x]
  {
    assert (s + [x])[..|s|] == s;
  }

  /** Appending a name when `b` holds. */
  lemma DedupStep(s: seq<string>, b: bool, x: string)
    ensures Dedup(s + (if b then [x] else [])) == if b && x !in s then Dedup(s) + [x] else Dedup(s)
  {
    if b {
      DedupSnoc(s, x);
    } else {
      assert s + [] == s;
    }
  }

  /** The timeline's walk from empty lists: the added list is the adding names in the
      order first met, and the removed list the removing names in the order first met,
      where a segment saying both words removes only a name added before. */
  lemma {:induction false} StepsExact(ms: seq<(string, string)>)
    ensures Steps(Lists([], []), ms) == Lists(Dedup(AddMentions(ms)), Dedup(RemoveMentions(ms)))
    decreases |ms|
  {
    if |ms| > 0 {
      var n := |ms| - 1;
      var p := ms[n];
      var a, rm := AddMentions(ms[..n]), RemoveMentions(ms[..n]);
      calc {
        Steps(Lists([], []), ms);
        { assert ms == ms[..n] + [p]; StepsSnoc(Lists([], []), ms[..n], p); }
        Step(Steps(Lists([], []), ms[..n]), p.0, p.1);
        { StepsExact(ms[..n]); }
        Step(Lists(Dedup(a), Dedup(rm)), p.0, p.1);
        { StepCases(Dedup(a), Dedup(rm), a, rm, p); }
        Lists(if Adds(p) && p.1 !in a then Dedup(a) + [p.1] else Dedup(a),
              if Removes(p, a) && p.1 !in rm then Dedup(rm) + [p.1] else Dedup(rm));
        { DedupStep(a, Adds(p), p.1); DedupStep(rm, Removes(p, a), p.1); }
        Lists(Dedup(a + (if Adds(p) then [p.1] else [])), Dedup(rm + (if Removes(p, a) then [p.1] else [])));
        Lists(Dedup(AddMentions(ms)), Dedup(RemoveMentions(ms)));
      }
    }
  }

  /** One step on deduplicated lists, case by case. */
  lemma StepCases(da: seq<string>, dr: seq<string>, a: seq<string>, rm: seq<string>, p: (string, string))
    requires forall x :: x in da <==> x in a
    requires forall x :: x in dr <==> x in rm
    ensures var r := Step(Lists(da, dr), p.0, p.1);
      && r.added == (if Adds(p) && p.1 !in a then da + [p.1] else da)
      && r.removed == (if Removes(p, a) && p.1 !in rm then dr + [p.1] else dr)
  {
  }

  /** One timeline entry. */
  datatype TimelineEntry = TimelineEntry(added: seq<string>, removed: seq<string>, author: string,
                                         authorRole: string, relativeTime: string, commentId: string)

  /** The added and removed lists of a change: each without duplicates; a name is added
      exactly when a segment saying "added" mentions it, and removed only when a segment
      saying "removed" mentions it, which it is whenever that segment does not also say
      "added". Exactly: both lists are the names in the order first met, the removed one
      counting a segment that says both words only for a name added before it. */
  function ChangeLists(c: Change): (r: Lists)
    ensures NoDuplicates(r.added) && NoDuplicates(r.removed)
    ensures forall x :: x in r.added <==> Says(Mentions(c.keywordItems), "added", x)
    ensures forall x :: x in r.removed ==> Says(Mentions(c.keywordItems), "removed", x)
    ensures forall x :: SaysOnlyRemoved(Mentions(c.keywordItems), x) ==> x in r.removed
    ensures var ms := Mentions(c.keywordItems);
      r == Lists(Dedup(AddMentions(ms)), Dedup(RemoveMentions(ms)))
  {
    StepsExact(Mentions(c.keywordItems));
    Steps(Lists([], []), Mentions(c.keywordItems))
  }

  /** The entry of a change, when it added or removed any keyword. */
  function EntryOf(c: Change, labels: map<string, string>): (r: Option<TimelineEntry>)
    ensures r.Some? <==> |ChangeLists(c).added| > 0 || |ChangeLists(c).removed| > 0
    ensures r.Some? ==> r.value.added == ChangeLists(c).added && r.value.removed == ChangeLists(c).removed
    ensures r.Some? ==> r.value.author == CleanAuthor(c, "Unknown")
                        && r.value.authorRole == LabelOr(labels, r.value.author, "Individual Contributor")
                        && r.value.relativeTime == RelativeTime(c)
                        && r.value.commentId == (if c.id == "" then "" else "#" + c.id)
  {
    var lists := ChangeLists(c);
    if |lists.added| == 0 && |lists.removed| == 0 then None
    else
      var author := CleanAuthor(c, "Unknown");
      Some(TimelineEntry(lists.added, lists.removed, author, LabelOr(labels, author, "Individual Contributor"),
                         RelativeTime(c), if c.id == "" then "" else "#" + c.id))
  }

  predicate HasChanges(e: TimelineEntry) {
    |e.added| > 0 || |e.removed| > 0
  }

  /** The entry of a change as a list of at most one. */
  function EntryList(c: Change, labels: map<string, string>): (r: seq<TimelineEntry>)
    ensures |r| <= 1
    ensures r == [] <==> EntryOf(c, labels).None?
    ensures forall e :: e in r ==> HasChanges(e)
  {
    match EntryOf(c, labels) case Some(e) => [e] case None => []
  }

  /** The entries in document order: one per change that added or removed a keyword. */
  function Entries(cs: seq<Change>, labels: map<string, string>): (r: seq<TimelineEntry>)
    ensures |r| <= |cs|
    ensures forall e :: e in r ==> HasChanges(e)
  {
    if |cs| == 0 then [] else Entries(cs[..|cs| - 1], labels) + EntryList(cs[|cs| - 1], labels)
  }

  /** extractKeywordChangeTimeline: the entries, reversed. */
  function Timeline(cs: seq<Change>, labels: map<string, string>): seq<TimelineEntry> {
    Reverse(Entries(cs, labels))
  }

  /** The entries of a longer log: a new change's entry goes after the older ones. */
  lemma EntriesAppend(cs: seq<Change>, c: Change, labels: map<string, string>)
    ensures Entries(cs + [c], labels) == Entries(cs, labels) + EntryList(c, labels)
  {
    assert (cs + [c])[..|cs|] == cs;
  }

  /** The timeline is newest first (the reverse of Trac's oldest-first order): the entry
      of the latest change, if any, leads and the rest follow in the same order. */
  lemma NewestFirst(cs: seq<Change>, c: Change, labels: map<string, string>)
    ensures Timeline(cs + [c], labels) == EntryList(c, labels) + Timeline(cs, labels)
  {
    var older, newest := Entries(cs, labels), EntryList(c, labels);
    EntriesAppend(cs, c, labels);
    ReverseAppend(older, newest);
    assert Reverse(newest) == newest;
  }
}
