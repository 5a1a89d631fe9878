/**
 The extension's settings as content/triage-helper.js holds them: three
 feature switches and the custom user lists, the defaults the script starts
 from, and the shallow merge with the object storage returns under
 `config`.
 */
module Settings {
  import opened Text

  /** The `customUsers` object. A list the object lacks reads as undefined. */
  datatype CustomUsers = CustomUsers(
    coreCommitters: Option<seq<string>>,
    leadTesters: Option<seq<string>>,
    componentMaintainers: Option<seq<string>>)

  datatype Config = Config(
    highlightComments: bool,
    showKeywordSidebar: bool,
    showMaintainerInfo: bool,
    customUsers: CustomUsers)

  /** The object stored under `config`: any of its keys may be missing. */
  datatype StoredConfig = StoredConfig(
    highlightComments: Option<bool>,
    showKeywordSidebar: Option<bool>,
    showMaintainerInfo: Option<bool>,
    customUsers: Option<CustomUsers>)

  /** The content script's starting configuration: everything on, all lists empty. */
  const Defaults: Config := Config(true, true, true, CustomUsers(Some([]), Some([]), Some([])))

  /** `list || []`: a missing list reads as the empty one. */
  function ListOrEmpty(list: Option<seq<string>>): (r: seq<string>)
    ensures list.Some? ==> r == list.value
    ensures list.None? ==> r == []
  {
    if list.Some? then list.value else []
  }

  /** One key of `{ ...config, ...stored }`: the stored value when the key is there. */
  function Override<T>(current: T, stored: Option<T>): (r: T)
    ensures stored.Some? ==> r == stored.value
    ensures stored.None? ==> r == current
  {
    if stored.Some? then stored.value else current
  }

  /** `{ ...config, ...stored }`: a shallow merge, so a stored `customUsers` object
      replaces the current one as a whole. */
  function Merge(c: Config, s: StoredConfig): (r: Config)
    ensures r.highlightComments == Override(c.highlightComments, s.highlightComments)
    ensures r.showKeywordSidebar == Override(c.showKeywordSidebar, s.showKeywordSidebar)
    ensures r.showMaintainerInfo == Override(c.showMaintainerInfo, s.showMaintainerInfo)
    ensures r.customUsers == Override(c.customUsers, s.customUsers)
  {
    Config(
      Override(c.highlightComments, s.highlightComments),
      Override(c.showKeywordSidebar, s.showKeywordSidebar),
      Override(c.showMaintainerInfo, s.showMaintainerInfo),
      Override(c.customUsers, s.customUsers))
  }

  /** loadConfig: the defaults, overridden by the stored object when there is one. */
  function LoadConfig(stored: Option<StoredConfig>): (r: Config)
    ensures stored.None? ==> r == Defaults
    ensures stored.Some? ==> r == Merge(Defaults, stored.value)
  {
    match stored
    case None => Defaults
    case Some(s) => Merge(Defaults, s)
  }

  /** The object that holds every key of a configuration. */
  function Stored(c: Config): (s: StoredConfig)
    ensures s.highlightComments == Some(c.highlightComments) && s.showKeywordSidebar == Some(c.showKeywordSidebar)
    ensures s.showMaintainerInfo == Some(c.showMaintainerInfo) && s.customUsers == Some(c.customUsers)
  {
    StoredConfig(Some(c.highlightComments), Some(c.showKeywordSidebar), Some(c.showMaintainerInfo), Some(c.customUsers))
  }

  /** Spreading one stored object and then another is spreading their union, the
      later one winning. */
  function Overlay(a: StoredConfig, b: StoredConfig): (r: StoredConfig)
    ensures r.highlightComments.None? <==> a.highlightComments.None? && b.highlightComments.None?
    ensures r.customUsers.None? <==> a.customUsers.None? && b.customUsers.None?
    ensures b.customUsers.Some? ==> r.customUsers == b.customUsers
  {
    StoredConfig(
      if b.highlightComments.Some? then b.highlightComments else a.highlightComments,
      if b.showKeywordSidebar.Some? then b.showKeywordSidebar else a.showKeywordSidebar,
      if b.showMaintainerInfo.Some? then b.showMaintainerInfo else a.showMaintainerInfo,
      if b.customUsers.Some? then b.customUsers else a.customUsers)
  }

  const NothingStored: StoredConfig := StoredConfig(None, None, None, None)

  /** An empty stored object changes nothing. */
  lemma MergeNothing(c: Config)
    ensures Merge(c, NothingStored) == c
  {
  }

  /** Merging the same stored object twice is merging it once. */
  lemma MergeIdempotent(c: Config, s: StoredConfig)
    ensures Merge(Merge(c, s), s) == Merge(c, s)
  {
  }

  /** Two merges in a row are one merge with the overlay of the two objects. */
  lemma MergeTwice(c: Config, a: StoredConfig, b: StoredConfig)
    ensures Merge(Merge(c, a), b) == Merge(c, Overlay(a, b))
  {
  }

  /** A stored object with every key replaces the configuration entirely. */
  lemma MergeComplete(c: Config, d: Config)
    ensures Merge(c, Stored(d)) == d
  {
  }

  /** A stored `customUsers` object without a `componentMaintainers` list loses the
      default's empty list: the merge does not reach inside the object. */
  lemma MergeIsShallow(s: StoredConfig)
    requires s.customUsers.Some? && s.customUsers.value.componentMaintainers.None?
    ensures LoadConfig(Some(s)).customUsers.componentMaintainers.None?
    ensures Defaults.customUsers.componentMaintainers.Some?
  {
  }
}
