/**
 The options page of options/options.js: the form it fills from storage,
 the configuration it saves from the form, the user-list parser between the
 two, and the reset to its own defaults. The page's DOM is a `Form` record
 and the storage area is the optional stored object.
 */
module OptionsPage {
  import opened Text
  import opened Settings

  /** The page's controls: three switches and two one-name-per-line text areas. */
  datatype Form = Form(
    highlightComments: bool,
    showKeywordSidebar: bool,
    showMaintainerInfo: bool,
    coreCommitters: string,
    leadTesters: string)

  /** The page's own defaults, which lack the content script's `componentMaintainers`. */
  const PageDefaults: StoredConfig :=
    StoredConfig(Some(true), Some(true), Some(true), Some(CustomUsers(Some([]), Some([]), None)))

  /** `checked = value`: a missing value unchecks the switch. */
  function Checked(value: Option<bool>): (r: bool)
    ensures r <==> value == Some(true)
  {
    value.Some? && value.value
  }

  /** A name as a saved list holds it: non-empty, trimmed, on one line. */
  predicate IsListName(name: string) {
    |name| > 0 && IsTrimmed(name) && '\n' !in name
  }

  /** parseUserList: the text's lines, trimmed, blank ones dropped. */
  function ParseUserList(text: string): (r: seq<string>)
    ensures forall k :: 0 <= k < |r| ==> IsListName(r[k])
    ensures forall k :: 0 <= k < |r| ==> r[k] in TrimAll(Split(text, '\n'))
  {
    var trimmed := TrimAll(Split(text, '\n'));
    TrimAllClean(Split(text, '\n'));
    KeptClean(trimmed);
    NonEmpty(trimmed)
  }

  /** Filtering clean lines keeps list names only. */
  lemma KeptClean(xs: seq<string>)
    requires forall k :: 0 <= k < |xs| ==> IsTrimmed(xs[k]) && '\n' !in xs[k]
    ensures forall k :: 0 <= k < |NonEmpty(xs)| ==> IsListName(NonEmpty(xs)[k])
  {
    var r := NonEmpty(xs);
    forall k | 0 <= k < |r| ensures IsListName(r[k]) {
      var j :| 0 <= j < |xs| && xs[j] == r[k];
    }
  }

  /** What one line contributes to the list: its trimmed text, unless that is blank. */
  function LineEntry(line: string): (r: seq<string>)
    ensures |r| <= 1
    ensures |r| == 1 <==> Trim(line) != ""
    ensures |r| == 1 ==> r[0] == Trim(line)
  {
    if Trim(line) == "" then [] else [Trim(line)]
  }

  /** Text without a line break is one line. */
  lemma ParseOneLine(line: string)
    requires '\n' !in line
    ensures ParseUserList(line) == LineEntry(line)
  {
    assert Split(line, '\n') == [line];
    TrimAllIsMap([line]);
    TrimAllIsMap([]);
    MapCons(Trim, line, []);
    assert [line] + [] == [line];
    NonEmptyOne(Trim(line));
  }

  /** The first line's entry comes first and the remaining lines follow in their own
      order: together with ParseOneLine this fixes the result's order and multiplicity
      for any text. */
  lemma ParseLines(line: string, rest: string)
    requires '\n' !in line
    ensures ParseUserList(line + "\n" + rest) == LineEntry(line) + ParseUserList(rest)
  {
    var lines := Split(rest, '\n');
    calc {
      ParseUserList(line + "\n" + rest);
      NonEmpty(TrimAll(Split(line + "\n" + rest, '\n')));
      { SplitCons(line, '\n', rest); }
      NonEmpty(TrimAll([line] + lines));
      { TrimAllCons(line, lines); }
      NonEmpty([Trim(line)] + TrimAll(lines));
      { NonEmptyAppend([Trim(line)], TrimAll(lines)); }
      NonEmpty([Trim(line)]) + NonEmpty(TrimAll(lines));
      { NonEmptyOne(Trim(line)); }
      LineEntry(line) + ParseUserList(rest);
    }
  }

  lemma TrimAllCons(line: string, lines: seq<string>)
    ensures TrimAll([line] + lines) == [Trim(line)] + TrimAll(lines)
  {
    TrimAllIsMap([line] + lines);
    TrimAllIsMap(lines);
    MapCons(Trim, line, lines);
  }

  /** Trimming lines that hold no line break leaves trimmed lines without one. */
  lemma TrimAllClean(lines: seq<string>)
    requires forall k :: 0 <= k < |lines| ==> '\n' !in lines[k]
    ensures forall k :: 0 <= k < |lines| ==> IsTrimmed(TrimAll(lines)[k]) && '\n' !in TrimAll(lines)[k]
  {
    forall k | 0 <= k < |lines|
      ensures '\n' !in TrimAll(lines)[k]
    {
      TrimKeepsOut(lines[k], '\n');
    }
  }

  /** loadSettings: the stored configuration, or the page defaults when nothing is
      stored, shown in the form. The text areas keep what they held when the object
      has no `customUsers`. */
  function LoadSettings(stored: Option<StoredConfig>, form: Form): (r: Form)
    ensures var c := if stored.Some? then stored.value else PageDefaults;
      && r.highlightComments == Checked(c.highlightComments)
      && r.showKeywordSidebar == Checked(c.showKeywordSidebar)
      && r.showMaintainerInfo == Checked(c.showMaintainerInfo)
      && (c.customUsers.None? ==> r.coreCommitters == form.coreCommitters && r.leadTesters == form.leadTesters)
      && (c.customUsers.Some? ==>
            r.coreCommitters == Join(ListOrEmpty(c.customUsers.value.coreCommitters), '\n')
            && r.leadTesters == Join(ListOrEmpty(c.customUsers.value.leadTesters), '\n'))
  {
    var c := if stored.Some? then stored.value else PageDefaults;
    var committers := if c.customUsers.Some? then Join(ListOrEmpty(c.customUsers.value.coreCommitters), '\n') else form.coreCommitters;
    var testers := if c.customUsers.Some? then Join(ListOrEmpty(c.customUsers.value.leadTesters), '\n') else form.leadTesters;
    Form(Checked(c.highlightComments), Checked(c.showKeywordSidebar), Checked(c.showMaintainerInfo), committers, testers)
  }

  /** saveSettings: the object written to storage. */
  function SaveSettings(form: Form): (s: StoredConfig)
    ensures s.highlightComments == Some(form.highlightComments)
    ensures s.showKeywordSidebar == Some(form.showKeywordSidebar)
    ensures s.showMaintainerInfo == Some(form.showMaintainerInfo)
    ensures s.customUsers == Some(CustomUsers(Some(ParseUserList(form.coreCommitters)), Some(ParseUserList(form.leadTesters)), None))
  {
    StoredConfig(Some(form.highlightComments), Some(form.showKeywordSidebar), Some(form.showMaintainerInfo),
      Some(CustomUsers(Some(ParseUserList(form.coreCommitters)), Some(ParseUserList(form.leadTesters)), None)))
  }

  /** resetSettings: unless the user declines, the page defaults are stored and the form
      is loaded from them; otherwise storage and form stay as they are. */
  function ResetSettings(confirmed: bool, stored: Option<StoredConfig>, form: Form): (r: (Option<StoredConfig>, Form))
    ensures !confirmed ==> r == (stored, form)
    ensures confirmed ==> r.0 == Some(PageDefaults)
    ensures confirmed ==> r.1 == Form(true, true, true, "", "")
  {
    if !confirmed then (stored, form)
    else (Some(PageDefaults), LoadSettings(Some(PageDefaults), form))
  }

  /** A list of names with nothing to drop or trim comes back from its own lines. */
  lemma ParseJoin(names: seq<string>)
    requires forall k :: 0 <= k < |names| ==> IsListName(names[k])
    ensures ParseUserList(Join(names, '\n')) == names
  {
    if |names| == 0 {
      ParseEmpty();
    } else {
      SplitJoin(names, '\n');
      TrimAllTrimmed(names);
      NonEmptyAll(names);
    }
  }

  /** An empty text holds no names. */
  lemma ParseEmpty()
    ensures ParseUserList("") == []
  {
    assert Split("", '\n') == [""];
    assert TrimAll([""]) == [""];
  }

  lemma TrimAllTrimmed(xs: seq<string>)
    requires forall k :: 0 <= k < |xs| ==> IsTrimmed(xs[k])
    ensures TrimAll(xs) == xs
  {
    forall k | 0 <= k < |xs|
      ensures Trim(xs[k]) == xs[k]
    {
      TrimTrimmed(xs[k]);
    }
  }

  /** Dropping the empty strings from a list that has none keeps it. */
  lemma {:induction false} NonEmptyAll(xs: seq<string>)
    requires forall k :: 0 <= k < |xs| ==> |xs[k]| > 0
    ensures NonEmpty(xs) == xs
    decreases |xs|
  {
    if |xs| > 0 {
      NonEmptyAll(xs[1..]);
      assert [xs[0]] + xs[1..] == xs;
    }
  }

  /** Parsing the lines of a parsed list gives that list again. */
  lemma ParseIdempotent(text: string)
    ensures ParseUserList(Join(ParseUserList(text), '\n')) == ParseUserList(text)
  {
    ParseJoin(ParseUserList(text));
  }

  /** Saved settings load back into the form: the switches as they were, each list one
      name per line, so saving again stores the same object. */
  lemma SaveLoadSave(form: Form, other: Form)
    ensures var shown := LoadSettings(Some(SaveSettings(form)), other);
      && shown.highlightComments == form.highlightComments
      && shown.showKeywordSidebar == form.showKeywordSidebar
      && shown.showMaintainerInfo == form.showMaintainerInfo
      && shown.coreCommitters == Join(ParseUserList(form.coreCommitters), '\n')
      && shown.leadTesters == Join(ParseUserList(form.leadTesters), '\n')
      && SaveSettings(shown) == SaveSettings(form)
  {
    ParseIdempotent(form.coreCommitters);
    ParseIdempotent(form.leadTesters);
  }

  /** What the content script runs with after a save: the form's switches and lists,
      and no `componentMaintainers` list, since the saved `customUsers` replaces the
      default one whole. */
  lemma SavedConfigInContent(form: Form)
    ensures LoadConfig(Some(SaveSettings(form))) ==
      Config(form.highlightComments, form.showKeywordSidebar, form.showMaintainerInfo,
        CustomUsers(Some(ParseUserList(form.coreCommitters)), Some(ParseUserList(form.leadTesters)), None))
  {
  }

  /** After a reset the content script runs with its own defaults, except for the
      `componentMaintainers` list the page defaults lack. */
  lemma ResetConfigInContent(stored: Option<StoredConfig>, form: Form)
    ensures var after := ResetSettings(true, stored, form).0;
      LoadConfig(after) == Defaults.(customUsers := Defaults.customUsers.(componentMaintainers := None))
  {
  }
}
