/**
 The string primitives the extension's scripts lean on, with the meaning
 JavaScript gives them: `trim`, the `\s` class, `includes`, `indexOf`,
 `startsWith`, `toLowerCase`, `split`, `join` and a `replace` with a
 string pattern (which replaces the first occurrence only); and the array
 operation `reverse`.
 */
module Text {

  datatype Option<+T> = None | Some(value: T)

  /** JavaScript's `\s` class, which is also the set `String.prototype.trim` strips:
      the WhiteSpace and LineTerminator code points of ECMAScript. */
  predicate IsSpace(c: char) {
    || c == '\t' || c == '\n' || c == '\U{000B}' || c == '\U{000C}' || c == '\r' || c == ' '
    || c == '\U{00A0}' || c == '\U{1680}' || ('\U{2000}' <= c <= '\U{200A}')
    || c == '\U{2028}' || c == '\U{2029}' || c == '\U{202F}' || c == '\U{205F}'
    || c == '\U{3000}' || c == '\U{FEFF}'
  }

  /** The characters a regular-expression `.` does not match. */
  predicate IsLineTerminator(c: char) {
    c == '\n' || c == '\r' || c == '\U{2028}' || c == '\U{2029}'
  }

  predicate IsDigit(c: char) { '0' <= c <= '9' }

  predicate IsUpper(c: char) { 'A' <= c <= 'Z' }

  predicate IsAsciiLetter(c: char) { 'a' <= c <= 'z' || 'A' <= c <= 'Z' }

  predicate NoSpace(s: string) { forall i :: 0 <= i < |s| ==> !IsSpace(s[i]) }

  predicate AllSpace(s: string) { forall i :: 0 <= i < |s| ==> IsSpace(s[i]) }

  /** A string `trim` leaves unchanged. */
  predicate IsTrimmed(s: string) {
    |s| == 0 || (!IsSpace(s[0]) && !IsSpace(s[|s| - 1]))
  }

  function TrimStart(s: string): (r: string)
    ensures |r| <= |s| && r == s[|s| - |r|..]
    ensures AllSpace(s[..|s| - |r|])
    ensures |r| == 0 || !IsSpace(r[0])
  {
    if |s| > 0 && IsSpace(s[0]) then TrimStart(s[1..]) else s
  }

  function TrimEnd(s: string): (r: string)
    ensures |r| <= |s| && r == s[..|r|]
    ensures AllSpace(s[|r|..])
    ensures |r| == 0 || !IsSpace(r[|r| - 1])
  {
    if |s| > 0 && IsSpace(s[|s| - 1]) then TrimEnd(s[..|s| - 1]) else s
  }

  /** `r` is cut out of `s` at offset `a` with only spaces on either side. */
  predicate CutFrom(s: string, r: string, a: nat) {
    a + |r| <= |s| && r == s[a..a + |r|] && AllSpace(s[..a]) && AllSpace(s[a + |r|..])
  }

  /** `String.prototype.trim`: the longest infix that neither starts nor ends with a space,
      cut out of `s` by removing only spaces. */
  function Trim(s: string): (r: string)
    ensures IsTrimmed(r)
    ensures exists a :: CutFrom(s, r, a)
  {
    TrimCut(s);
    TrimEnd(TrimStart(s))
  }

  /** Each element trimmed, as `map(s => s.trim())` does. */
  function TrimAll(lines: seq<string>): (r: seq<string>)
    ensures |r| == |lines| && forall k :: 0 <= k < |r| ==> r[k] == Trim(lines[k])
  {
    seq(|lines|, k requires 0 <= k < |lines| => Trim(lines[k]))
  }

  /** `map` over strings: `f` applied to each element, in place. */
  function Map(f: string -> string, xs: seq<string>): (r: seq<string>)
    ensures |r| == |xs| && forall k :: 0 <= k < |xs| ==> r[k] == f(xs[k])
  {
    seq(|xs|, k requires 0 <= k < |xs| => f(xs[k]))
  }

  /** Every element of a trimmed list is trimmed. */
  lemma TrimAllTrimmedEach(lines: seq<string>)
    ensures forall k :: 0 <= k < |TrimAll(lines)| ==> IsTrimmed(TrimAll(lines)[k])
  {
  }

  /** `TrimAll` is `map` with `trim`. */
  lemma TrimAllIsMap(lines: seq<string>)
    ensures TrimAll(lines) == Map(Trim, lines)
  {
    var a, b := TrimAll(lines), Map(Trim, lines);
    assert forall k :: 0 <= k < |a| ==> a[k] == b[k];
  }

  /** Mapping a sequence with a head maps the head and then the rest. */
  lemma MapCons(f: string -> string, x: string, xs: seq<string>)
    ensures Map(f, [x] + xs) == [f(x)] + Map(f, xs)
  {
    var a, b := Map(f, [x] + xs), [f(x)] + Map(f, xs);
    assert forall k :: 0 <= k < |a| ==> a[k] == b[k];
  }

  /** Where `trim` cuts: after the leading spaces and before the trailing ones. */
  lemma TrimCut(s: string)
    ensures CutFrom(s, TrimEnd(TrimStart(s)), |s| - |TrimStart(s)|)
  {
    var t := TrimStart(s);
    SpacesAround(s, t, TrimEnd(t), |s| - |t|);
  }

  /** Stripping spaces from the front and then from the back cuts out an infix. */
  lemma SpacesAround(s: string, t: string, r: string, a: nat)
    requires a <= |s| && t == s[a..] && AllSpace(s[..a])
    requires |r| <= |t| && r == t[..|r|] && AllSpace(t[|r|..])
    ensures CutFrom(s, r, a)
  {
    assert s[a + |r|..] == t[|r|..];
  }

  /** Trimming an already trimmed string changes nothing. */
  lemma TrimTrimmed(s: string)
    requires IsTrimmed(s)
    ensures Trim(s) == s
  {
  }

  /** A string without any space is its own trim. */
  lemma TrimNoSpace(s: string)
    requires NoSpace(s)
    ensures Trim(s) == s
  {
  }

  /** `trim` strips the spaces around a trimmed text and nothing else. */
  lemma TrimPadded(p: string, t: string, q: string)
    requires AllSpace(p) && AllSpace(q) && IsTrimmed(t)
    ensures Trim(p + t + q) == t
  {
    if |t| == 0 {
      assert p + t + q == (p + q) + "";
      TrimStartSkips(p + q, "");
    } else {
      assert p + t + q == p + (t + q);
      TrimStartSkips(p, t + q);
      TrimEndSkips(t, q);
    }
  }

  lemma {:induction false} TrimStartSkips(p: string, t: string)
    requires AllSpace(p) && (|t| == 0 || !IsSpace(t[0]))
    ensures TrimStart(p + t) == t
    decreases |p|
  {
    if |p| > 0 {
      assert (p + t)[1..] == p[1..] + t;
      TrimStartSkips(p[1..], t);
    } else {
      assert p + t == t;
    }
  }

  lemma {:induction false} TrimEndSkips(t: string, q: string)
    requires AllSpace(q) && (|t| == 0 || !IsSpace(t[|t| - 1]))
    ensures TrimEnd(t + q) == t
    decreases |q|
  {
    if |q| > 0 {
      assert (t + q)[..|t + q| - 1] == t + q[..|q| - 1];
      TrimEndSkips(t, q[..|q| - 1]);
    } else {
      assert t + q == t;
    }
  }

  /** A character the text does not hold is not in its trim either. */
  lemma TrimKeepsOut(s: string, c: char)
    requires c !in s
    ensures c !in Trim(s)
  {
    var a: nat :| CutFrom(s, Trim(s), a);
  }

  /** Trimming is idempotent. */
  lemma TrimIdempotent(s: string)
    ensures Trim(Trim(s)) == Trim(s)
  {
    TrimTrimmed(Trim(s));
  }

  /** `toLowerCase`, on the ASCII letters (see README for the non-ASCII gap). */
  function LowerChar(c: char): (r: char)
    ensures IsUpper(c) ==> r as int == c as int + 32
    ensures !IsUpper(c) ==> r == c
  {
    if IsUpper(c) then (c as int + 32) as char else c
  }

  function ToLower(s: string): (r: string)
    ensures |r| == |s|
    ensures forall i :: 0 <= i < |s| ==> r[i] == LowerChar(s[i])
  {
    seq(|s|, i requires 0 <= i < |s| => LowerChar(s[i]))
  }

  predicate IsLowerCase(s: string) { forall i :: 0 <= i < |s| ==> !IsUpper(s[i]) }

  /** Lower-casing leaves no upper-case letter and is idempotent. */
  lemma ToLowerIsLower(s: string)
    ensures IsLowerCase(ToLower(s))
    ensures ToLower(ToLower(s)) == ToLower(s)
  {
  }

  /** A lower-case string is its own lower-casing. */
  lemma ToLowerOfLower(s: string)
    requires IsLowerCase(s)
    ensures ToLower(s) == s
  {
  }

  predicate StartsWith(s: string, prefix: string) {
    |prefix| <= |s| && s[..|prefix|] == prefix
  }

  predicate EndsWith(s: string, suffix: string) {
    |suffix| <= |s| && s[|s| - |suffix|..] == suffix
  }

  /** `sub` occurs in `s` starting at index `j`. */
  predicate OccursAt(s: string, sub: string, j: nat) {
    j + |sub| <= |s| && s[j..j + |sub|] == sub
  }

  /** `s.indexOf(sub, from)`: the leftmost occurrence at or after `from`. */
  function IndexOfFrom(s: string, sub: string, from: nat): (r: Option<nat>)
    ensures r.Some? ==> from <= r.value && OccursAt(s, sub, r.value)
    ensures r.Some? ==> forall j :: from <= j < r.value ==> !OccursAt(s, sub, j)
    ensures r.None? ==> forall j :: from <= j ==> !OccursAt(s, sub, j)
    decreases |s| - from
  {
    if from + |sub| > |s| then None
    else if s[from..from + |sub|] == sub then Some(from)
    else IndexOfFrom(s, sub, from + 1)
  }

  function IndexOf(s: string, sub: string): Option<nat> {
    IndexOfFrom(s, sub, 0)
  }

  /** `s.includes(sub)`. */
  predicate Contains(s: string, sub: string) {
    IndexOf(s, sub).Some?
  }

  lemma ContainsIff(s: string, sub: string)
    ensures Contains(s, sub) <==> exists j :: OccursAt(s, sub, j)
  {
  }

  /** Any string includes itself at position 0, and every string includes "". */
  lemma ContainsWitness(s: string, sub: string, j: nat)
    requires OccursAt(s, sub, j)
    ensures Contains(s, sub)
  {
  }

  /** `s.replace(pattern, replacement)` with a string pattern: first occurrence only. */
  function ReplaceFirst(s: string, pattern: string, replacement: string): (r: string)
    ensures !Contains(s, pattern) ==> r == s
    ensures Contains(s, pattern) ==>
      var i := IndexOf(s, pattern).value;
      r == s[..i] + replacement + s[i + |pattern|..]
  {
    match IndexOf(s, pattern)
    case None => s
    case Some(i) => s[..i] + replacement + s[i + |pattern|..]
  }

  /** When `head` holds no '{', the first occurrence of a pattern starting with '{'
      in `head + tail` is the one inside `tail`. */
  lemma IndexOfPastPrefix(head: string, tail: string, pattern: string)
    requires |pattern| > 0 && pattern[0] == '{'
    requires forall i :: 0 <= i < |head| ==> head[i] != '{'
    requires StartsWith(tail, pattern)
    ensures IndexOf(head + tail, pattern) == Some(|head|)
  {
    var s := head + tail;
    assert OccursAt(s, pattern, |head|);
    forall j | 0 <= j < |head|
      ensures !OccursAt(s, pattern, j)
    {
      assert s[j] == head[j];
      if j + |pattern| <= |s| {
        assert s[j..j + |pattern|][0] == s[j];
      }
    }
  }

  /** JavaScript's `s.split(c)` for a one-character separator. */
  function Split(s: string, sep: char): (r: seq<string>)
    ensures |r| >= 1
    ensures forall k :: 0 <= k < |r| ==> sep !in r[k]
    decreases |s|
  {
    if sep !in s then [s]
    else
      var i := FirstIndex(s, sep);
      [s[..i]] + Split(s[i + 1..], sep)
  }

  function FirstIndex(s: string, c: char): (i: nat)
    requires c in s
    ensures i < |s| && s[i] == c && c !in s[..i]
  {
    if s[0] == c then 0 else 1 + FirstIndex(s[1..], c)
  }

  /** `parts.join(sep)` with a one-character separator. */
  function Join(parts: seq<string>, sep: char): string {
    if |parts| == 0 then ""
    else if |parts| == 1 then parts[0]
    else parts[0] + [sep] + Join(parts[1..], sep)
  }

  /** Splitting a joined list gives the list back, when no part holds the separator. */
  lemma {:induction false} SplitJoin(parts: seq<string>, sep: char)
    requires |parts| >= 1
    requires forall k :: 0 <= k < |parts| ==> sep !in parts[k]
    ensures Split(Join(parts, sep), sep) == parts
    decreases |parts|
  {
    if |parts| == 1 {
    } else {
      var s := Join(parts, sep);
      var rest := Join(parts[1..], sep);
      assert s == parts[0] + [sep] + rest;
      FirstIndexConcat(parts[0], sep, rest);
      assert s[..|parts[0]|] == parts[0];
      assert s[|parts[0]| + 1..] == rest;
      SplitJoin(parts[1..], sep);
    }
  }

  /** The first separator of `a + [c] + b` is the one after `a` when `a` holds none. */
  lemma {:induction false} FirstIndexConcat(a: string, c: char, b: string)
    requires c !in a
    ensures FirstIndex(a + [c] + b, c) == |a|
    decreases |a|
  {
    var s := a + [c] + b;
    if |a| > 0 {
      assert s[0] == a[0];
      assert s[1..] == a[1..] + [c] + b;
      FirstIndexConcat(a[1..], c, b);
    }
  }

  /** A line followed by a separator splits off as the first piece. */
  lemma SplitCons(a: string, sep: char, b: string)
    requires sep !in a
    ensures Split(a + [sep] + b, sep) == [a] + Split(b, sep)
  {
    var s := a + [sep] + b;
    assert s[|a|] == sep;
    FirstIndexConcat(a, sep, b);
    assert s[..|a|] == a;
    assert s[|a| + 1..] == b;
  }

  /** Joining the pieces of a split gives the string back. */
  lemma {:induction false} JoinSplit(s: string, sep: char)
    ensures Join(Split(s, sep), sep) == s
    decreases |s|
  {
    if sep in s {
      var i := FirstIndex(s, sep);
      var rest := Split(s[i + 1..], sep);
      JoinSplit(s[i + 1..], sep);
      var parts := Split(s, sep);
      assert parts == [s[..i]] + rest;
      assert parts[0] == s[..i] && parts[1..] == rest;
      assert Join(parts, sep) == s[..i] + [sep] + Join(rest, sep);
      assert s == s[..i] + [sep] + s[i + 1..];
    }
  }

  /** The index just past the run of spaces that starts at `i`. */
  function SpaceRunEnd(s: string, i: nat): (e: nat)
    requires i <= |s|
    ensures i <= e <= |s|
    ensures forall k :: i <= k < e ==> IsSpace(s[k])
    ensures e == |s| || !IsSpace(s[e])
    decreases |s| - i
  {
    if i < |s| && IsSpace(s[i]) then SpaceRunEnd(s, i + 1) else i
  }

  /** The index just past the run of digits that starts at `i`. */
  function DigitRunEnd(s: string, i: nat): (e: nat)
    requires i <= |s|
    ensures i <= e <= |s|
    ensures forall k :: i <= k < e ==> IsDigit(s[k])
    ensures e == |s| || !IsDigit(s[e])
    decreases |s| - i
  {
    if i < |s| && IsDigit(s[i]) then DigitRunEnd(s, i + 1) else i
  }

  /** A maximal run of digits from `i` to `e` is the run DigitRunEnd finds. */
  lemma {:induction false} DigitRunEndAt(s: string, i: nat, e: nat)
    requires i <= e <= |s|
    requires forall k :: i <= k < e ==> IsDigit(s[k])
    requires e == |s| || !IsDigit(s[e])
    ensures DigitRunEnd(s, i) == e
    decreases e - i
  {
    if i < e {
      DigitRunEndAt(s, i + 1, e);
    }
  }

  /** The index just past the run of non-spaces that starts at `i` (what `[^\s]+` takes). */
  function WordRunEnd(s: string, i: nat): (e: nat)
    requires i <= |s|
    ensures i <= e <= |s|
    ensures forall k :: i <= k < e ==> !IsSpace(s[k])
    ensures e == |s| || IsSpace(s[e])
    decreases |s| - i
  {
    if i < |s| && !IsSpace(s[i]) then WordRunEnd(s, i + 1) else i
  }

  /** The first index at or after `i` that holds a space, or `|s|`. */
  function NextSpace(s: string, i: nat): (e: nat)
    requires i <= |s|
    ensures i <= e <= |s|
    ensures forall k :: i <= k < e ==> !IsSpace(s[k])
    ensures e < |s| ==> IsSpace(s[e])
    decreases |s| - i
  {
    if i == |s| || IsSpace(s[i]) then i else NextSpace(s, i + 1)
  }

  /** JavaScript's `s.split(/\s+/)`: the pieces between maximal runs of spaces
      (a leading or trailing run gives an empty first or last piece). */
  function SplitOnSpaces(s: string): (r: seq<string>)
    ensures |r| >= 1
    ensures forall k :: 0 <= k < |r| ==> NoSpace(r[k])
    decreases |s|
  {
    var i := NextSpace(s, 0);
    if i == |s| then [s]
    else
      var j := SpaceRunEnd(s, i);
      [s[..i]] + SplitOnSpaces(s[j..])
  }

  /** The non-empty pieces of a list of strings, in order. */
  function NonEmpty(xs: seq<string>): (r: seq<string>)
    ensures forall k :: 0 <= k < |r| ==> |r[k]| > 0
    ensures forall k :: 0 <= k < |r| ==> r[k] in xs
    ensures forall x :: x in xs && |x| > 0 ==> x in r
  {
    if |xs| == 0 then []
    else if |xs[0]| > 0 then [xs[0]] + NonEmpty(xs[1..])
    else NonEmpty(xs[1..])
  }

  /** Filtering commutes with concatenation, so the kept elements stay in their order
      and keep their multiplicity. */
  lemma {:induction false} NonEmptyAppend(a: seq<string>, b: seq<string>)
    ensures NonEmpty(a + b) == NonEmpty(a) + NonEmpty(b)
    decreases |a|
  {
    if |a| == 0 {
      assert a + b == b;
    } else {
      var ab := a + b;
      assert ab[0] == a[0];
      assert ab[1..] == a[1..] + b;
      NonEmptyAppend(a[1..], b);
      if |a[0]| > 0 {
        calc {
          NonEmpty(ab);
          [a[0]] + NonEmpty(ab[1..]);
          [a[0]] + (NonEmpty(a[1..]) + NonEmpty(b));
          ([a[0]] + NonEmpty(a[1..])) + NonEmpty(b);
          NonEmpty(a) + NonEmpty(b);
        }
      } else {
        calc {
          NonEmpty(ab);
          NonEmpty(ab[1..]);
          NonEmpty(a[1..]) + NonEmpty(b);
          NonEmpty(a) + NonEmpty(b);
        }
      }
    }
  }

  /** One element is kept exactly when it is non-empty. */
  lemma NonEmptyOne(x: string)
    ensures NonEmpty([x]) == if |x| > 0 then [x] else []
  {
    assert [x][1..] == [];
  }

  /** The words of `s`: `s.split(/\s+/).filter(w => w.length > 0)`. */
  function Words(s: string): (r: seq<string>)
    ensures forall k :: 0 <= k < |r| ==> |r[k]| > 0 && NoSpace(r[k])
  {
    NonEmpty(SplitOnSpaces(s))
  }

  /** Splitting space-joined words on runs of spaces gives the words back. */
  lemma {:induction false} WordsOfJoin(ws: seq<string>)
    requires forall k :: 0 <= k < |ws| ==> |ws[k]| > 0 && NoSpace(ws[k])
    ensures Words(Join(ws, ' ')) == ws
    decreases |ws|
  {
    if |ws| == 0 {
      assert SplitOnSpaces("") == [""];
    } else if |ws| == 1 {
      NextSpaceNone(ws[0]);
      assert NonEmpty([ws[0]]) == [ws[0]] + NonEmpty([]);
    } else {
      var s := Join(ws, ' ');
      var rest := Join(ws[1..], ' ');
      assert s == ws[0] + [' '] + rest;
      var i := NextSpace(s, 0);
      NextSpaceAt(s, ws[0]);
      assert i == |ws[0]|;
      JoinNoLeadingSpace(ws[1..]);
      var j := SpaceRunEnd(s, i);
      assert j == i + 1 by {
        assert IsSpace(s[i]);
        if |rest| > 0 {
          assert s[i + 1] == rest[0];
        }
        assert SpaceRunEnd(s, i + 1) == i + 1;
      }
      assert s[j..] == rest;
      assert s[..i] == ws[0];
      assert SplitOnSpaces(s) == [ws[0]] + SplitOnSpaces(rest);
      WordsOfJoin(ws[1..]);
      assert NonEmpty(SplitOnSpaces(s)) == [ws[0]] + NonEmpty(SplitOnSpaces(rest));
    }
  }

  lemma NextSpaceNone(s: string)
    requires NoSpace(s)
    ensures SplitOnSpaces(s) == [s]
  {
    assert NextSpace(s, 0) == |s|;
  }

  lemma NextSpaceAt(s: string, w: string)
    requires NoSpace(w) && |w| < |s| && s[..|w|] == w && IsSpace(s[|w|])
    ensures NextSpace(s, 0) == |w|
  {
    NextSpaceFrom(s, w, 0);
  }

  lemma {:induction false} NextSpaceFrom(s: string, w: string, i: nat)
    requires NoSpace(w) && |w| < |s| && s[..|w|] == w && IsSpace(s[|w|])
    requires i <= |w|
    ensures NextSpace(s, i) == |w|
    decreases |w| - i
  {
    if i < |w| {
      assert s[i] == w[i];
      NextSpaceFrom(s, w, i + 1);
    }
  }

  /** A join of non-empty space-free words neither starts with a space nor is empty. */
  lemma JoinNoLeadingSpace(ws: seq<string>)
    requires |ws| >= 1
    requires forall k :: 0 <= k < |ws| ==> |ws[k]| > 0 && NoSpace(ws[k])
    ensures |Join(ws, ' ')| > 0 && !IsSpace(Join(ws, ' ')[0])
  {
    if |ws| > 1 {
      assert Join(ws, ' ') == ws[0] + [' '] + Join(ws[1..], ' ');
      assert Join(ws, ' ')[0] == ws[0][0];
    }
  }

  /** A join of non-empty space-free words neither ends with a space. */
  lemma {:induction false} JoinNoTrailingSpace(ws: seq<string>)
    requires |ws| >= 1
    requires forall k :: 0 <= k < |ws| ==> |ws[k]| > 0 && NoSpace(ws[k])
    ensures |Join(ws, ' ')| > 0 && !IsSpace(Join(ws, ' ')[|Join(ws, ' ')| - 1])
    decreases |ws|
  {
    if |ws| > 1 {
      var rest := Join(ws[1..], ' ');
      JoinNoTrailingSpace(ws[1..]);
      assert Join(ws, ' ') == ws[0] + [' '] + rest;
    }
  }

  /** Words joined by single spaces are a trimmed text. */
  lemma JoinTrimmed(ws: seq<string>)
    requires forall k :: 0 <= k < |ws| ==> |ws[k]| > 0 && NoSpace(ws[k])
    ensures IsTrimmed(Join(ws, ' '))
  {
    if |ws| > 0 {
      JoinNoLeadingSpace(ws);
      JoinNoTrailingSpace(ws);
    }
  }

  /** Lexicographic order on characters (code points). `Array.prototype.sort` compares
      UTF-16 code units, which orders the same unless a character beyond U+FFFF meets
      one between U+E000 and U+FFFF. */
  predicate StrLess(a: string, b: string) {
    if |a| == 0 then |b| > 0
    else if |b| == 0 then false
    else if a[0] != b[0] then a[0] < b[0]
    else StrLess(a[1..], b[1..])
  }

  lemma {:induction false} StrLessIrreflexive(a: string)
    ensures !StrLess(a, a)
  {
    if |a| > 0 { StrLessIrreflexive(a[1..]); }
  }

  lemma {:induction false} StrLessTotal(a: string, b: string)
    ensures a == b || StrLess(a, b) || StrLess(b, a)
  {
    if |a| > 0 && |b| > 0 && a[0] == b[0] {
      StrLessTotal(a[1..], b[1..]);
      if a[1..] == b[1..] {
        assert a == [a[0]] + a[1..];
        assert b == [b[0]] + b[1..];
      }
    }
  }

  lemma {:induction false} StrLessTransitive(a: string, b: string, c: string)
    requires StrLess(a, b) && StrLess(b, c)
    ensures StrLess(a, c)
  {
    if |a| > 0 && |b| > 0 && |c| > 0 && a[0] == b[0] && b[0] == c[0] {
      StrLessTransitive(a[1..], b[1..], c[1..]);
    }
  }

  lemma {:induction false} StrLessAsymmetric(a: string, b: string)
    requires StrLess(a, b)
    ensures !StrLess(b, a)
  {
    if |a| > 0 && |b| > 0 && a[0] == b[0] {
      StrLessAsymmetric(a[1..], b[1..]);
    }
  }

  /** `Array.prototype.reverse`. */
  function Reverse<T>(s: seq<T>): (r: seq<T>)
    ensures |r| == |s|
    ensures forall i :: 0 <= i < |s| ==> r[i] == s[|s| - 1 - i]
  {
    if |s| == 0 then [] else Reverse(s[1..]) + [s[0]]
  }

  /** Reversing a concatenation reverses the order of the parts. */
  lemma ReverseAppend<T>(s: seq<T>, t: seq<T>)
    ensures Reverse(s + t) == Reverse(t) + Reverse(s)
  {
    assert forall i :: 0 <= i < |s + t| ==> Reverse(s + t)[i] == (Reverse(t) + Reverse(s))[i];
  }

  /** The character of a decimal digit. */
  function DigitChar(d: nat): (c: char)
    requires d < 10
    ensures IsDigit(c) && c as int - '0' as int == d
  {
    ('0' as int + d) as char
  }

  /** A number as JavaScript prints it in a template: decimal digits, no leading zero. */
  function Decimal(n: nat): (r: string)
    ensures |r| > 0 && forall k :: 0 <= k < |r| ==> IsDigit(r[k])
    ensures r[0] == '0' ==> n == 0
    decreases n
  {
    if n < 10 then [DigitChar(n)] else Decimal(n / 10) + [DigitChar(n % 10)]
  }

  /** The number a string of decimal digits stands for. */
  function DecimalValue(s: string): nat
    requires forall k :: 0 <= k < |s| ==> IsDigit(s[k])
  {
    if |s| == 0 then 0
    else
      assert IsDigit(s[|s| - 1]);
      DecimalValue(s[..|s| - 1]) * 10 + (s[|s| - 1] as int - '0' as int)
  }

  /** Reading a printed number gives the number back, so distinct numbers print
      differently. */
  lemma {:induction false} DecimalRoundTrip(n: nat)
    ensures DecimalValue(Decimal(n)) == n
    decreases n
  {
    if n >= 10 {
      var d := Decimal(n / 10);
      DecimalRoundTrip(n / 10);
      assert (d + [DigitChar(n % 10)])[..|d|] == d;
    }
  }
}
