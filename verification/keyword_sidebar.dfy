/**
 The keyword sidebar of content/triage-helper.js (createKeywordSidebar):
 each of the ticket's keywords is filed under its table entry's category,
 or under "unknown", in an object whose keys keep the order in which the
 categories were first met; the sections are then drawn in the sorted order
 of those keys, each listing its keywords in ticket order.
 */
module KeywordSidebar {
  import opened Text
  import opened Objects
  import opened KeywordData
  import opened Sorting
  import opened Tallies
  import opened TallyLaws

  /** A keyword with its table entry, none for a keyword the table does not know. */
  datatype Item = Item(keyword: string, info: Option<KeywordInfo>)

  /** `KEYWORD_DATA[keyword.toLowerCase()]`. */
  function ItemOf(keyword: string): Item {
    Item(keyword, KeywordDefinitions(ToLower(keyword)))
  }

  /** An item carries its keyword as written and the table entry of its lower-case
      form, none when the table has no such keyword. */
  lemma ItemOfEntry(keyword: string)
    ensures ItemOf(keyword).keyword == keyword
    ensures ItemOf(keyword).info.Some? ==> exists k :: Name(k) == ToLower(keyword) && ItemOf(keyword).info.value == Entry(k)
    ensures ItemOf(keyword).info.None? ==> forall k :: Name(k) != ToLower(keyword)
  {
  }

  /** The bucket of an item: its entry's category, or "unknown". */
  function ItemCategory(it: Item): (c: string)
    ensures it.info.Some? ==> c == it.info.value.category
    ensures it.info.None? ==> c == "unknown"
  {
    match it.info
    case Some(e) => e.category
    case None => "unknown"
  }

  function CategoryOf(keyword: string): string {
    ItemCategory(ItemOf(keyword))
  }

  /** A keyword is filed as unknown exactly when the table has no entry for it. */
  lemma UnknownCategory(keyword: string)
    ensures CategoryOf(keyword) == "unknown" <==> forall k :: Name(k) != ToLower(keyword)
  {
    ItemOfEntry(keyword);
    if CategoryOf(keyword) == "unknown" && ItemOf(keyword).info.Some? {
      var k :| Name(k) == ToLower(keyword) && ItemOf(keyword).info.value == Entry(k);
      KnownCategories(k);
    }
  }

  /** Every category of the table has a configuration, and none is "unknown". */
  lemma KnownCategories(k: Keyword)
    ensures Category(k) in CategoryConfig && Category(k) != "unknown"
  {
  }

  /** `(buckets[c] = buckets[c] || []).push(item)`, with `c` the item's category. */
  function File(buckets: Object<seq<Item>>, it: Item): (r: Object<seq<Item>>)
    ensures Get(r, ItemCategory(it)).Some?
  {
    var c := ItemCategory(it);
    var current := match Get(buckets, c) case Some(items) => items case None => [];
    Set(buckets, c, current + [it])
  }

  /** Filing an item appends it to its own category's bucket and leaves the others. */
  lemma GetFiled(buckets: Object<seq<Item>>, it: Item, c: string)
    ensures Get(File(buckets, it), c) ==
      if ItemCategory(it) == c then Some((if Get(buckets, c).Some? then Get(buckets, c).value else []) + [it])
      else Get(buckets, c)
  {
  }

  /** The item of each keyword, in ticket order. */
  function Items(keywords: seq<string>): (r: seq<Item>)
    ensures |r| == |keywords| && forall i :: 0 <= i < |r| ==> r[i] == ItemOf(keywords[i])
  {
    seq(|keywords|, i requires 0 <= i < |keywords| => ItemOf(keywords[i]))
  }

  /** The buckets of a list of items, filed in list order. */
  function Buckets(items: seq<Item>): (r: Object<seq<Item>>)
    decreases |items|
  {
    if |items| == 0 then []
    else File(Buckets(items[..|items| - 1]), items[|items| - 1])
  }

  /** The items filed under `c`, in list order. */
  function InCategory(items: seq<Item>, c: string): (r: seq<Item>)
    ensures forall i :: 0 <= i < |r| ==> ItemCategory(r[i]) == c
    decreases |items|
  {
    if |items| == 0 then []
    else
      var it := items[|items| - 1];
      InCategory(items[..|items| - 1], c) + (if ItemCategory(it) == c then [it] else [])
  }

  /** The category of each item, in list order. */
  function Categories(items: seq<Item>): (r: seq<string>)
    ensures |r| == |items| && forall i :: 0 <= i < |r| ==> r[i] == ItemCategory(items[i])
  {
    seq(|items|, i requires 0 <= i < |items| => ItemCategory(items[i]))
  }

  lemma CategoriesPrefix(items: seq<Item>)
    requires |items| > 0
    ensures Categories(items) == Categories(items[..|items| - 1]) + [ItemCategory(items[|items| - 1])]
  {
  }

  /** Each bucket holds exactly the items of its category, in list order; a category
      no item has gets no bucket. */
  lemma {:induction false} BucketContents(items: seq<Item>, c: string)
    ensures Get(Buckets(items), c) == if |InCategory(items, c)| > 0 then Some(InCategory(items, c)) else None
    decreases |items|
  {
    if |items| > 0 {
      var init, it := items[..|items| - 1], items[|items| - 1];
      var prev := InCategory(init, c);
      assert InCategory(items, c) == prev + (if ItemCategory(it) == c then [it] else []);
      assert Buckets(items) == File(Buckets(init), it);
      BucketContents(init, c);
      GetFiled(Buckets(init), it, c);
      if ItemCategory(it) == c {
        assert Get(Buckets(items), c) == Some(prev + [it]);
      } else {
        assert InCategory(items, c) == prev;
        assert Get(Buckets(items), c) == Get(Buckets(init), c);
      }
    }
  }

  /** The buckets appear in the order their categories were first met. */
  lemma {:induction false} BucketKeys(items: seq<Item>)
    ensures Keys(Buckets(items)) == Distinct(Categories(items))
    decreases |items|
  {
    if |items| > 0 {
      var init := items[..|items| - 1];
      BucketKeys(init);
      CategoriesPrefix(items);
      DistinctStep(Categories(init), ItemCategory(items[|items| - 1]));
    }
  }

  /** No category has two buckets. */
  lemma {:induction false} BucketsUnique(items: seq<Item>)
    ensures UniqueKeys(Buckets(items))
    decreases |items|
  {
    if |items| > 0 {
      BucketsUnique(items[..|items| - 1]);
    }
  }

  /** The order `Array.prototype.sort` without a comparator uses for the category names,
      compared character by character. */
  lemma StrLessOrder()
    ensures StrictOrder(StrLess)
  {
    forall a ensures !StrLess(a, a) {
      StrLessIrreflexive(a);
    }
    forall a, b, c | StrLess(a, b) && StrLess(b, c) ensures StrLess(a, c) {
      StrLessTransitive(a, b, c);
    }
    forall a, b ensures StrLess(a, b) || a == b || StrLess(b, a) {
      StrLessTotal(a, b);
    }
  }

  /** One category of the sidebar: its key, its heading (the configured name, or
      "Other"), and its keywords. */
  datatype Section = Section(category: string, heading: string, items: seq<Item>)

  /** `CATEGORY_CONFIG[c] || { name: 'Other' }`, read from the given table. */
  function Heading(config: map<string, CategoryInfo>, c: string): (h: string)
    ensures c in config ==> h == config[c].name
    ensures c !in config ==> h == "Other"
  {
    if c in config then config[c].name else "Other"
  }

  function Identity(s: string): string { s }

  /** The values of a bucket object under the given keys. */
  function SectionsOf(config: map<string, CategoryInfo>, buckets: Object<seq<Item>>, order: seq<string>): (r: seq<Section>)
    ensures |r| == |order|
    ensures forall i :: 0 <= i < |r| ==> r[i].category == order[i] && r[i].heading == Heading(config, order[i])
    ensures forall i :: 0 <= i < |r| ==> Get(buckets, order[i]) == Some(r[i].items) || (Get(buckets, order[i]).None? && r[i].items == [])
  {
    seq(|order|, i requires 0 <= i < |order| =>
      Section(order[i], Heading(config, order[i]), match Get(buckets, order[i]) case Some(items) => items case None => []))
  }

  /** The sections' categories are strictly increasing. */
  predicate SectionsSorted(r: seq<Section>, lt: (string, string) -> bool) {
    forall i, j :: 0 <= i < j < |r| ==> lt(r[i].category, r[j].category)
  }

  /** Each section holds the items of its category, in list order, and at least one. */
  predicate SectionsFilled(r: seq<Section>, items: seq<Item>) {
    forall i :: 0 <= i < |r| ==> r[i].items == InCategory(items, r[i].category) && |r[i].items| > 0
  }

  /** Some section is the one of category `c`. */
  predicate HasSection(r: seq<Section>, c: string) {
    exists j :: 0 <= j < |r| && r[j].category == c
  }

  /** Every item's category has a section. */
  predicate SectionsCover(r: seq<Section>, items: seq<Item>) {
    forall i :: 0 <= i < |items| ==> HasSection(r, ItemCategory(items[i]))
  }

  /** createKeywordSidebar: no sidebar when the table is missing or the ticket has no
      keywords; otherwise one section per category of its keywords, in sorted order,
      each holding that category's keywords in ticket order. */
  function KeywordSections(loaded: bool, keywords: seq<string>): (r: Option<seq<Section>>)
    ensures r.None? <==> !loaded || |keywords| == 0
    ensures r.Some? ==> SectionsSorted(r.value, StrLess)
    ensures r.Some? ==> SectionsFilled(r.value, Items(keywords))
    ensures r.Some? ==> SectionsCover(r.value, Items(keywords))
  {
    if !loaded || |keywords| == 0 then None
    else
      var items := Items(keywords);
      var buckets := Buckets(items);
      StrLessOrder();
      var order := SortBy(Keys(buckets), Identity, StrLess);
      SortedOrder(items, order, StrLess);
      var r := SectionsOf(CategoryConfig, buckets, order);
      SectionsMeet(items, buckets, order, r, StrLess);
      Some(r)
  }

  /** The sorted keys, in strictly increasing order. */
  predicate KeysSorted(order: seq<string>, lt: (string, string) -> bool) {
    forall i, j :: 0 <= i < j < |order| ==> lt(order[i], order[j])
  }

  /** Each key's bucket holds that category's items, and at least one. */
  predicate KeysFilled(order: seq<string>, buckets: Object<seq<Item>>, items: seq<Item>) {
    forall i :: 0 <= i < |order| ==>
      Get(buckets, order[i]) == Some(InCategory(items, order[i])) && |InCategory(items, order[i])| > 0
  }

  /** Every item's category is a key. */
  predicate KeysCover(order: seq<string>, items: seq<Item>) {
    forall i :: 0 <= i < |items| ==> ItemCategory(items[i]) in order
  }

  /** Sections drawn from ordered keys whose buckets hold their categories' items,
      and which cover every item's category, are ordered, hold those items, and
      leave no item out. */
  lemma SectionsMeet(items: seq<Item>, buckets: Object<seq<Item>>, order: seq<string>, r: seq<Section>, lt: (string, string) -> bool)
    requires KeysSorted(order, lt) && KeysFilled(order, buckets, items) && KeysCover(order, items)
    requires r == SectionsOf(CategoryConfig, buckets, order)
    ensures SectionsSorted(r, lt) && SectionsFilled(r, items) && SectionsCover(r, items)
  {
    assert SectionsCover(r, items) by {
      forall i | 0 <= i < |items|
        ensures HasSection(r, ItemCategory(items[i]))
      {
        assert ItemCategory(items[i]) in order;
        var j := IndexIn(order, ItemCategory(items[i]));
        assert r[j].category == ItemCategory(items[i]);
      }
    }
  }

  /** The position of an element in a sequence that holds it. */
  function IndexIn(s: seq<string>, x: string): (i: nat)
    requires x in s
    ensures i < |s| && s[i] == x
  {
    if s[0] == x then 0 else 1 + IndexIn(s[1..], x)
  }

  /** What the sorted keys of the buckets are: every category of the items, once
      each, in strictly increasing order, each with its non-empty bucket. */
  lemma SortedOrder(items: seq<Item>, order: seq<string>, lt: (string, string) -> bool)
    requires StrictOrder(lt)
    requires multiset(order) == multiset(Keys(Buckets(items))) && Sorted(order, Identity, lt)
    ensures KeysSorted(order, lt) && KeysFilled(order, Buckets(items), items) && KeysCover(order, items)
  {
    var keys := Keys(Buckets(items));
    BucketsUnique(items);
    assert NoDuplicates(keys);
    PermutationNoDuplicates(order, keys);
    SortedStrictly(order, Identity, lt);
    forall i | 0 <= i < |order|
      ensures Get(Buckets(items), order[i]) == Some(InCategory(items, order[i])) && |InCategory(items, order[i])| > 0
    {
      assert order[i] in multiset(keys);
      BucketContents(items, order[i]);
    }
    BucketKeys(items);
    forall i | 0 <= i < |items|
      ensures ItemCategory(items[i]) in order
    {
      assert Categories(items)[i] == ItemCategory(items[i]);
      DistinctMembers(Categories(items), ItemCategory(items[i]));
      assert ItemCategory(items[i]) in multiset(keys);
    }
  }

  /** Every keyword lands in exactly one section: the one of its category. */
  lemma OneSectionEach(loaded: bool, keywords: seq<string>, i: nat, j: nat)
    requires KeywordSections(loaded, keywords).Some?
    requires i < |keywords| && j < |KeywordSections(loaded, keywords).value|
    ensures var s := KeywordSections(loaded, keywords).value[j];
      ItemOf(keywords[i]) in s.items <==> s.category == CategoryOf(keywords[i])
  {
    var items := Items(keywords);
    SectionOfItem(KeywordSections(loaded, keywords).value, items, i, j);
  }

  /** In filled sections an item sits in exactly the section of its category. */
  lemma SectionOfItem(r: seq<Section>, items: seq<Item>, i: nat, j: nat)
    requires SectionsFilled(r, items)
    requires i < |items| && j < |r|
    ensures items[i] in r[j].items <==> r[j].category == ItemCategory(items[i])
  {
    if r[j].category == ItemCategory(items[i]) {
      InCategoryHas(items, i);
    }
  }

  /** An item is in its category's list. */
  lemma {:induction false} InCategoryHas(items: seq<Item>, i: nat)
    requires i < |items|
    ensures items[i] in InCategory(items, ItemCategory(items[i]))
    decreases |items|
  {
    var n := |items| - 1;
    if i < n {
      InCategoryHas(items[..n], i);
    }
  }

  /** Every keyword's category has a section. */
  lemma KeywordsCovered(loaded: bool, keywords: seq<string>, i: nat)
    requires KeywordSections(loaded, keywords).Some? && i < |keywords|
    ensures HasSection(KeywordSections(loaded, keywords).value, CategoryOf(keywords[i]))
  {
    assert Items(keywords)[i] == ItemOf(keywords[i]);
  }

  /** What the sidebar shows of one keyword. A template literal writes a missing
      `usage` as "undefined". */
  datatype Shown = Shown(title: string, description: string, color: string, critical: bool, usage: string)

  /** The placeholder entry of a keyword the table does not know. */
  function UnknownShown(keyword: string): (d: Shown)
    ensures d.title == keyword && !d.critical && d.usage == "undefined"
  {
    Shown(keyword, "Unknown keyword", "#999", false, "undefined")
  }

  /** The entry drawn for an item: its table entry, or the placeholder. */
  function ShownItem(it: Item): (d: Shown)
    ensures it.info.Some? ==> d == Shown(it.info.value.displayName, it.info.value.description,
      it.info.value.color, it.info.value.critical, it.info.value.usage)
    ensures it.info.None? ==> d == UnknownShown(it.keyword)
  {
    match it.info
    case Some(e) => Shown(e.displayName, e.description, e.color, e.critical, e.usage)
    case None => UnknownShown(it.keyword)
  }

  /** Only table keywords are marked critical, and only when their entry says so. */
  lemma CriticalOnlyKnown(keyword: string)
    ensures ShownItem(ItemOf(keyword)).critical ==>
      exists k :: Name(k) == ToLower(keyword) && Critical(k)
  {
    ItemOfEntry(keyword);
  }
}
