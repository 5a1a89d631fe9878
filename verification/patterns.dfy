/**
 The regular expressions the content scripts apply to scraped text, each
 written out as the matcher the JavaScript engine runs: a function that says
 whether the pattern matches starting at index `i` (and what it captures),
 plus `Leftmost`, the engine's scan for the first index where it does.
 Backtracking is resolved by hand in each matcher; the comment on each says
 why the resolution is unique.
 */
module Patterns {
  import opened Text

  /** The scan of `String.prototype.match` without the global flag: the first start
      index, at or after `from`, where the matcher succeeds. */
  function Leftmost<T>(s: string, at: (string, nat) -> Option<T>, from: nat): (r: Option<(nat, T)>)
    ensures r.Some? ==> from <= r.value.0 <= |s| && at(s, r.value.0) == Some(r.value.1)
    ensures r.Some? ==> forall j :: from <= j < r.value.0 ==> at(s, j).None?
    ensures r.None? ==> forall j :: from <= j <= |s| ==> at(s, j).None?
    decreases |s| + 1 - from
  {
    if from > |s| then None
    else match at(s, from)
      case Some(v) => Some((from, v))
      case None => Leftmost(s, at, from + 1)
  }

  // ---------------------------------------------------------------------
  // /(\d+\s+(?:years?|months?|days?|hours?|minutes?)\s+ago)/
  // ---------------------------------------------------------------------

  /** The relative-time units, in the order the alternation tries them. */
  const TimeUnits: seq<string> := ["year", "month", "day", "hour", "minute"]

  /** The index past a unit word (with its optional plural `s`) that starts at `i`,
      when that word is followed by a space. `s?` is greedy and giving the `s`
      back leaves an `s`, not a space, in front of `\s+`, so the end is unique. */
  function UnitEnd(s: string, i: nat): (r: Option<nat>)
    ensures r.Some? ==> i < r.value < |s| && IsSpace(s[r.value])
  {
    if i > |s| then None
    else UnitEndFrom(s, i, 0)
  }

  function UnitEndFrom(s: string, i: nat, k: nat): (r: Option<nat>)
    requires i <= |s|
    ensures r.Some? ==> i < r.value < |s| && IsSpace(s[r.value])
    decreases |TimeUnits| - k
  {
    if k >= |TimeUnits| then None
    else if StartsWith(s[i..], TimeUnits[k]) then
      var p := i + |TimeUnits[k]|;
      var q := if p < |s| && s[p] == 's' then p + 1 else p;
      if q < |s| && IsSpace(s[q]) then Some(q) else None
    else UnitEndFrom(s, i, k + 1)
  }

  /** The relative-time pattern anchored at `i`; the result is the index just past
      "ago". Digits and both space runs are maximal: a shorter run would leave a digit
      where `\s` is needed, or a space where a letter is needed. */
  function TimeAt(s: string, i: nat): (r: Option<nat>)
    ensures r.Some? ==> i < r.value <= |s| && IsDigit(s[i]) && EndsWith(s[..r.value], "ago")
  {
    if i >= |s| || !IsDigit(s[i]) then None
    else
      var d := DigitRunEnd(s, i);
      var w := SpaceRunEnd(s, d);
      if w == d then None
      else match UnitEnd(s, w)
        case None => None
        case Some(u) =>
          var a := SpaceRunEnd(s, u);
          if StartsWith(s[a..], "ago") then
            AgoEnds(s, a);
            Some(a + 3)
          else None
  }

  /** "ago" read at `a` ends the text cut just past it. */
  lemma AgoEnds(s: string, a: nat)
    requires a <= |s| && StartsWith(s[a..], "ago")
    ensures a + 3 <= |s| && EndsWith(s[..a + 3], "ago")
  {
    assert s[..a + 3][a..] == s[a..][..3];
  }

  /** Group 1 of the relative-time pattern anchored at `i`: the whole phrase. */
  function PhraseAt(s: string, i: nat): (r: Option<string>)
    ensures r.Some? <==> TimeAt(s, i).Some?
    ensures r.Some? ==> TimeAt(s, i) == Some(i + |r.value|) && r.value == s[i..i + |r.value|]
  {
    match TimeAt(s, i)
    case None => None
    case Some(e) => Some(s[i..e])
  }

  /** The first "<n> <unit> ago" phrase of a text, as captured by group 1. */
  function TimeAgo(s: string): (r: Option<string>)
    ensures r.Some? ==> exists i :: 0 <= i <= |s| && PhraseAt(s, i) == r
    ensures r.None? <==> forall i :: 0 <= i <= |s| ==> PhraseAt(s, i).None?
  {
    FirstCapture(s, PhraseAt)
  }

  /** A phrase of the shape the pattern describes is found. */
  lemma TimeAgoFinds(s: string, i: nat)
    requires i <= |s| && TimeAt(s, i).Some?
    ensures TimeAgo(s).Some?
  {
    assert PhraseAt(s, i).Some?;
  }

  // ---------------------------------------------------------------------
  // /trac-change-(\d+)-/
  // ---------------------------------------------------------------------

  /** "trac-change-", a maximal digit run, "-"; the capture is the digit run. */
  function TracChangeAt(s: string, i: nat): (r: Option<string>)
    ensures r.Some? ==> |r.value| > 0 && forall k :: 0 <= k < |r.value| ==> IsDigit(r.value[k])
  {
    if i > |s| || !StartsWith(s[i..], "trac-change-") then None
    else
      var p := i + 12;
      var d := DigitRunEnd(s, p);
      if d > p && d < |s| && s[d] == '-' then Some(s[p..d]) else None
  }

  // ---------------------------------------------------------------------
  // /[?&](?:reporter|owner|author)=([^&]+)/  and  /reporter=([^&]+)/
  // ---------------------------------------------------------------------

  /** The index just past the run of characters other than `stop` that starts at `i`:
      where a greedy `[^stop]+` ends. */
  function UntilChar(s: string, i: nat, stop: char): (e: nat)
    requires i <= |s|
    ensures i <= e <= |s|
    ensures forall k :: i <= k < e ==> s[k] != stop
    ensures e == |s| || s[e] == stop
    decreases |s| - i
  {
    if i < |s| && s[i] != stop then UntilChar(s, i + 1, stop) else i
  }

  /** `name` anchored at `i`, then `[^&]+` (greedy, so it runs to the next '&'). */
  function ParamValueAt(s: string, i: nat, name: string): (r: Option<string>)
    ensures r.Some? ==> |r.value| > 0 && '&' !in r.value
  {
    if i > |s| || !StartsWith(s[i..], name) then None
    else
      var p := i + |name|;
      var e := UntilChar(s, p, '&');
      if e > p then Some(s[p..e]) else None
  }

  /** `[?&](?:reporter|owner|author)=([^&]+)` anchored at `i`. The three names start
      with different letters, so at most one alternative can match. */
  function QueryUserAt(s: string, i: nat): (r: Option<string>)
    ensures r.Some? ==> |r.value| > 0 && '&' !in r.value
  {
    if i >= |s| || (s[i] != '?' && s[i] != '&') then None
    else if ParamValueAt(s, i + 1, "reporter=").Some? then ParamValueAt(s, i + 1, "reporter=")
    else if ParamValueAt(s, i + 1, "owner=").Some? then ParamValueAt(s, i + 1, "owner=")
    else ParamValueAt(s, i + 1, "author=")
  }

  function ReporterAt(s: string, i: nat): (r: Option<string>)
    ensures r.Some? ==> |r.value| > 0 && '&' !in r.value
  {
    ParamValueAt(s, i, "reporter=")
  }

  /** What the first match of a pattern captures, if it matches anywhere. */
  function FirstCapture<T>(s: string, at: (string, nat) -> Option<T>): (r: Option<T>)
    ensures r.Some? <==> exists i :: 0 <= i <= |s| && at(s, i).Some?
    ensures r.Some? ==> exists i :: 0 <= i <= |s| && at(s, i) == r && forall j :: 0 <= j < i ==> at(s, j).None?
  {
    match Leftmost(s, at, 0)
    case None => None
    case Some((_, v)) => Some(v)
  }

  // ---------------------------------------------------------------------
  // /profiles\.wordpress\.org\/([^\/]+)/
  // ---------------------------------------------------------------------

  function ProfileAt(s: string, i: nat): (r: Option<string>)
    ensures r.Some? ==> |r.value| > 0 && '/' !in r.value
  {
    if i > |s| || !StartsWith(s[i..], "profiles.wordpress.org/") then None
    else
      var p := i + 23;
      var e := UntilChar(s, p, '/');
      if e > p then Some(s[p..e]) else None
  }

  // ---------------------------------------------------------------------
  // /\s*(<label>|<label>|...).*$/  used with replace(..., '')
  // ---------------------------------------------------------------------

  predicate NoLineTerminator(s: string) {
    forall k :: 0 <= k < |s| ==> !IsLineTerminator(s[k])
  }

  /** Some label of the alternation starts at `p` and `.*$` can consume the rest.
      No label is a prefix of another, so which one matched does not matter. */
  predicate LabelThenRestAt(s: string, p: nat, labels: seq<string>)
    requires p <= |s|
  {
    exists k :: 0 <= k < |labels| && StartsWith(s[p..], labels[k]) && NoLineTerminator(s[p + |labels[k]|..])
  }

  /** `text.replace(/\s*(labels...).*$/, '')`: cut the text at the first place where
      a role label (after optional spaces) runs to the end of the text. */
  function StripRoleLabel(s: string, labels: seq<string>): (r: string)
    ensures |r| <= |s| && r == s[..|r|]
    ensures |r| < |s| ==> LabelThenRestAt(s, SpaceRunEnd(s, |r|), labels)
    ensures forall j :: 0 <= j < |r| ==> !LabelThenRestAt(s, SpaceRunEnd(s, j), labels)
  {
    match FirstRoleLabel(s, labels, 0)
    case None => s
    case Some(i) => s[..i]
  }

  /** `Leftmost` for the role-label pattern, which is parameterised by its labels.
      `\s*` is greedy and no label starts with a space, so at each start index only
      the maximal space run can precede the label. */
  function FirstRoleLabel(s: string, labels: seq<string>, from: nat): (r: Option<nat>)
    ensures r.Some? ==> from <= r.value <= |s| && LabelThenRestAt(s, SpaceRunEnd(s, r.value), labels)
    ensures r.Some? ==> forall j :: from <= j < r.value ==> !LabelThenRestAt(s, SpaceRunEnd(s, j), labels)
    ensures r.None? ==> forall j :: from <= j <= |s| ==> !LabelThenRestAt(s, SpaceRunEnd(s, j), labels)
    decreases |s| + 1 - from
  {
    if from > |s| then None
    else if LabelThenRestAt(s, SpaceRunEnd(s, from), labels) then Some(from)
    else FirstRoleLabel(s, labels, from + 1)
  }

  // ---------------------------------------------------------------------
  // /\/ticket\/\d+/ (used as a test)
  // ---------------------------------------------------------------------

  predicate TicketAt(s: string, i: nat) {
    i <= |s| && StartsWith(s[i..], "/ticket/") && i + 8 < |s| && IsDigit(s[i + 8])
  }

  /** `/\/ticket\/\d+/` matches somewhere in `s`. */
  predicate HasTicketPath(s: string) {
    exists i :: 0 <= i <= |s| && TicketAt(s, i)
  }

  // ---------------------------------------------------------------------
  // /^(\d+\.\d+(?:\.\d+)?)$/
  // ---------------------------------------------------------------------

  predicate AllDigits(s: string) { forall k :: 0 <= k < |s| ==> IsDigit(s[k]) }

  /** A WordPress version number: two or three dot-separated non-empty digit runs. */
  predicate IsVersion(s: string) {
    var d1 := DigitRunEnd(s, 0);
    && 0 < d1 < |s| && s[d1] == '.'
    && var d2 := DigitRunEnd(s, d1 + 1);
       && d2 > d1 + 1
       && (d2 == |s| ||
           (s[d2] == '.' && DigitRunEnd(s, d2 + 1) > d2 + 1 && DigitRunEnd(s, d2 + 1) == |s|))
  }

  // ---------------------------------------------------------------------
  // /\.(patch|diff)$/i
  // ---------------------------------------------------------------------

  /** The case-insensitive flag folds only ASCII letters here (none of the pattern's
      letters has a non-ASCII case partner that folds to it). */
  predicate IsPatchFileName(s: string) {
    EndsWith(ToLower(s), ".patch") || EndsWith(ToLower(s), ".diff")
  }

  // ---------------------------------------------------------------------
  // /^Keywords\s+/ (replaced by '')
  // ---------------------------------------------------------------------

  function StripKeywordsPrefix(s: string): (r: string)
    ensures |r| <= |s| && r == s[|s| - |r|..]
    ensures !StartsWith(s, "Keywords") ==> r == s
  {
    if StartsWith(s, "Keywords") && SpaceRunEnd(s, 8) > 8 then s[SpaceRunEnd(s, 8)..] else s
  }

  // ---------------------------------------------------------------------
  // /Keywords?\s+(.+?)\s+(added|removed)/ (the older extractor)
  // ---------------------------------------------------------------------

  datatype KeywordAction = Added | Removed

  /** The tail `\s+(added|removed)` at `e`: the space run must be the maximal one,
      since the action words start with letters; "added" is tried first. */
  function ActionAt(s: string, e: nat): (r: Option<KeywordAction>)
    requires e <= |s|
    ensures r.Some? ==> e < |s| && IsSpace(s[e])
  {
    if e == |s| || !IsSpace(s[e]) then None
    else
      var t := SpaceRunEnd(s, e);
      if StartsWith(s[t..], "added") then Some(Added)
      else if StartsWith(s[t..], "removed") then Some(Removed)
      else None
  }

  /** The lazy `(.+?)` starting at `q`: the shortest capture `s[q..e]`, of at least one
      character and no line terminator, after which the action tail matches. */
  function LazyCapture(s: string, q: nat, e: nat): (r: Option<(nat, KeywordAction)>)
    requires q < e <= |s|
    requires NoLineTerminator(s[q..e - 1])
    ensures r.Some? ==> e <= r.value.0 <= |s| && NoLineTerminator(s[q..r.value.0])
                        && ActionAt(s, r.value.0) == Some(r.value.1)
    decreases |s| - e
  {
    if IsLineTerminator(s[e - 1]) then None
    else
      NoLineTerminatorExtend(s, q, e - 1);
      match ActionAt(s, e)
      case Some(a) => Some((e, a))
      case None => if e == |s| then None else LazyCapture(s, q, e + 1)
  }

  lemma NoLineTerminatorExtend(s: string, q: nat, e: nat)
    requires q <= e < |s|
    requires NoLineTerminator(s[q..e]) && !IsLineTerminator(s[e])
    ensures NoLineTerminator(s[q..e + 1])
  {
    assert s[q..e + 1] == s[q..e] + [s[e]];
  }

  /** Backtracking of the first `\s+`: the engine tries the longest space run first
      and gives characters back one at a time, each time re-running the lazy group. */
  function CaptureFrom(s: string, p: nat, q: nat): (r: Option<(nat, nat, KeywordAction)>)
    requires p < q <= |s|
    ensures r.Some? ==> p < r.value.0 < r.value.1 <= |s| && NoLineTerminator(s[r.value.0..r.value.1])
                        && ActionAt(s, r.value.1) == Some(r.value.2)
    decreases q
  {
    var lazy := if q < |s| then LazyCapture(s, q, q + 1) else None;
    match lazy
    case Some((e, a)) => Some((q, e, a))
    case None => if q - 1 > p then CaptureFrom(s, p, q - 1) else None
  }

  /** `Keywords?\s+(.+?)\s+(added|removed)` anchored at `i`; the result is the capture
      and the action. `s?` takes the `s` when present: giving it back leaves an `s`
      where `\s+` needs a space. */
  function OldKeywordAt(s: string, i: nat): (r: Option<(string, KeywordAction)>)
    ensures r.Some? ==> |r.value.0| > 0 && NoLineTerminator(r.value.0)
  {
    if i > |s| || !StartsWith(s[i..], "Keyword") then None
    else
      var p0 := i + 7;
      var p := if p0 < |s| && s[p0] == 's' then p0 + 1 else p0;
      var w := SpaceRunEnd(s, p);
      if w == p then None
      else match CaptureFrom(s, p, w)
        case None => None
        case Some((q, e, a)) => Some((s[q..e], a))
  }

  // ---------------------------------------------------------------------
  // /changed from\s+([^\s]+)\s+to\s+([^\s]+)/  and  /set to\s+([^\s]+)/
  // ---------------------------------------------------------------------

  /** Every run here is maximal: a shorter space run leaves a space where `[^\s]` is
      needed, a shorter word leaves a non-space where `\s` is needed. */
  function ChangedFromAt(s: string, i: nat): (r: Option<(string, string)>)
    ensures r.Some? ==> |r.value.0| > 0 && NoSpace(r.value.0) && |r.value.1| > 0 && NoSpace(r.value.1)
  {
    if i > |s| || !StartsWith(s[i..], "changed from") then None
    else
      var w := SpaceRunEnd(s, i + 12);
      var a := WordRunEnd(s, w);
      var b := SpaceRunEnd(s, a);
      if w == i + 12 || a == w || b == a || !StartsWith(s[b..], "to") then None
      else
        var d := SpaceRunEnd(s, b + 2);
        var e := WordRunEnd(s, d);
        if d == b + 2 || e == d then None else Some((s[w..a], s[d..e]))
  }

  function SetToAt(s: string, i: nat): (r: Option<string>)
    ensures r.Some? ==> |r.value| > 0 && NoSpace(r.value)
  {
    if i > |s| || !StartsWith(s[i..], "set to") then None
    else
      var w := SpaceRunEnd(s, i + 6);
      var e := WordRunEnd(s, w);
      if w == i + 6 || e == w then None else Some(s[w..e])
  }

  // ---------------------------------------------------------------------
  // /^([A-Za-z\s]+?)(?:\s*\d+\s+(?:years?|months?|days?|hours?|minutes?)\s+ago|$)/
  // ---------------------------------------------------------------------

  predicate IsLabelChar(c: char) { IsAsciiLetter(c) || IsSpace(c) }

  predicate AllLabelChars(s: string) { forall k :: 0 <= k < |s| ==> IsLabelChar(s[k]) }

  /** The lazy group grows one character at a time from `l`; at each length the time
      alternative is tried before end-of-input. */
  function LabelPrefixFrom(s: string, l: nat): (r: Option<nat>)
    requires 0 < l <= |s|
    requires AllLabelChars(s[..l - 1])
    ensures r.Some? ==> l <= r.value <= |s| && AllLabelChars(s[..r.value])
    ensures r.Some? ==> r.value == |s| || TimeAt(s, SpaceRunEnd(s, r.value)).Some?
    decreases |s| - l
  {
    if !IsLabelChar(s[l - 1]) then None
    else
      assert AllLabelChars(s[..l]) by {
        assert forall k :: 0 <= k < l - 1 ==> s[..l][k] == s[..l - 1][k];
      }
      if TimeAt(s, SpaceRunEnd(s, l)).Some? || l == |s| then Some(l)
      else LabelPrefixFrom(s, l + 1)
  }

  /** Capture group 1 of the role-label pattern (anchored at the start). */
  function RoleLabelPrefix(s: string): (r: Option<string>)
    ensures r.Some? ==> 0 < |r.value| <= |s| && r.value == s[..|r.value|] && AllLabelChars(r.value)
  {
    if |s| == 0 then None
    else match LabelPrefixFrom(s, 1)
      case None => None
      case Some(l) => Some(s[..l])
  }

  /** A text of letters and spaces only is captured whole: no digit can start the
      time alternative, so the lazy group runs to the end. */
  lemma LabelOnlyText(s: string)
    requires |s| > 0 && AllLabelChars(s)
    ensures RoleLabelPrefix(s) == Some(s)
  {
    assert AllLabelChars(s[..0]);
    LabelRunsToEnd(s, 1);
    assert s[..|s|] == s;
  }

  lemma {:induction false} LabelRunsToEnd(s: string, l: nat)
    requires 0 < l <= |s| && AllLabelChars(s)
    requires AllLabelChars(s[..l - 1])
    ensures LabelPrefixFrom(s, l) == Some(|s|)
    decreases |s| - l
  {
    var e := SpaceRunEnd(s, l);
    assert TimeAt(s, e).None? by {
      if e < |s| {
        assert IsLabelChar(s[e]);
      }
    }
    if l < |s| {
      assert AllLabelChars(s[..l]) by {
        assert forall k :: 0 <= k < l ==> s[..l][k] == s[k];
      }
      LabelRunsToEnd(s, l + 1);
    }
  }
}
