/** The penalties reference: the traversal of the parsed penalties document
    into categories, sections and items (keeping what was read before a
    failure), the flat display list, the index lookup behind the drawer's
    jump, and the colour class of a penalty. */
module Penalties {
  import opened Wrappers
  import opened Json
  import Strings
  import Sorting
  import opened VersionOrder

  datatype PenaltyItem = PenaltyItem(id: string, text: string)

  datatype PenaltySection = PenaltySection(
    id: string,
    title: string,
    penalty: Option<string>,
    description: Option<string>,
    items: seq<PenaltyItem>)

  datatype PenaltyCategory = PenaltyCategory(id: string, title: string, sections: seq<PenaltySection>)

  /** A row of the penalties list: a category header or a section card. */
  datatype PenaltyDisplayItem = CategoryHeaderItem(category: PenaltyCategory) | SectionItem(section: PenaltySection)
  {
    function Id(): string {
      match this
      case CategoryHeaderItem(c) => c.id
      case SectionItem(s) => s.id
    }
  }

  // ---------------------------------------------------------------------------
  // loadPenaltiesFromAssets, as functions
  // ---------------------------------------------------------------------------

  /** `keys()` sorted with `compareVersionStrings` (a stable sort). */
  function VersionSortedKeys(members: seq<Member>): seq<string> {
    Sorting.InsertionSort(Keys(members), VersionLe)
  }

  /** `if (isNull(name)) null else getString(name)`. */
  function NullableString(members: seq<Member>, name: string): (r: Option<string>)
    ensures r.None? <==> IsNull(members, name)
    ensures r.Some? ==> r == GetString(members, name)
  {
    if IsNull(members, name) then None else GetString(members, name)
  }

  /** One element of `items`: `getJSONObject(i)` fails on a non-object. */
  function ItemOf(element: Json): Option<PenaltyItem> {
    match ObjectElement(element)
    case None => None
    case Some(m) => Some(PenaltyItem(OptString(m, "id", ""), OptString(m, "text", "")))
  }

  function ItemResults(elements: seq<Json>): (r: seq<Option<PenaltyItem>>)
    ensures |r| == |elements| && forall i :: 0 <= i < |elements| ==> r[i] == ItemOf(elements[i])
  {
    seq(|elements|, i requires 0 <= i < |elements| => ItemOf(elements[i]))
  }

  /** A section's items: none without an `items` array. */
  function ItemsOf(sectionObj: seq<Member>): Option<seq<PenaltyItem>> {
    match ArrayAt(sectionObj, "items")
    case None => Some([])
    case Some(elements) => AllSome(ItemResults(elements))
  }

  function SectionOf(sectionsObj: seq<Member>, key: string): Option<PenaltySection> {
    match ObjectAt(sectionsObj, key)
    case None => None
    case Some(m) =>
      match ItemsOf(m)
      case None => None
      case Some(items) =>
        Some(PenaltySection(key, OptString(m, "title", ""), NullableString(m, "penalty"),
                            NullableString(m, "description"), items))
  }

  /** The sections read for `keys`, in order, passing over every key that
      ends in ".1"; `None` once one of them fails. */
  function SectionsUpTo(sectionsObj: seq<Member>, keys: seq<string>): Option<seq<PenaltySection>>
    decreases |keys|
  {
    if keys == [] then Some([])
    else
      var key := keys[|keys| - 1];
      match SectionsUpTo(sectionsObj, keys[..|keys| - 1])
      case None => None
      case Some(list) =>
        if Strings.EndsWith(key, ".1") then Some(list)
        else
          match SectionOf(sectionsObj, key)
          case None => None
          case Some(section) => Some(list + [section])
  }

  /** A category's sections: none without a `sections` object. */
  function SectionsOf(categoryObj: seq<Member>): Option<seq<PenaltySection>> {
    match ObjectAt(categoryObj, "sections")
    case None => Some([])
    case Some(m) => SectionsUpTo(m, VersionSortedKeys(m))
  }

  function CategoryOf(rootObj: seq<Member>, key: string): Option<PenaltyCategory> {
    match ObjectAt(rootObj, key)
    case None => None
    case Some(m) =>
      match SectionsOf(m)
      case None => None
      case Some(sections) => Some(PenaltyCategory(key, OptString(m, "title", ""), sections))
  }

  function CategoryResults(rootObj: seq<Member>, keys: seq<string>): (r: seq<Option<PenaltyCategory>>)
    ensures |r| == |keys| && forall i :: 0 <= i < |keys| ==> r[i] == CategoryOf(rootObj, keys[i])
  {
    seq(|keys|, i requires 0 <= i < |keys| => CategoryOf(rootObj, keys[i]))
  }

  /** What `loadPenaltiesFromAssets` returns: the categories completed before
      the first failure (all of them when none fails); nothing for a document
      that is not an object. */
  function LoadPenalties(root: Json): seq<PenaltyCategory> {
    if !root.Obj? then []
    else TakeWhileSome(CategoryResults(root.members, VersionSortedKeys(root.members)))
  }

  // ---------------------------------------------------------------------------
  // loadPenaltiesFromAssets, as the loops it is
  // ---------------------------------------------------------------------------

  /** The `items` loop; `None` stands for the exception that ends the load. */
  method LoadItems(sectionObj: seq<Member>) returns (r: Option<seq<PenaltyItem>>)
    ensures r == ItemsOf(sectionObj)
  {
    var itemsJsonArray := ArrayAt(sectionObj, "items");
    if itemsJsonArray.None? {
      return Some([]);
    }
    var elements := itemsJsonArray.value;
    ghost var results := ItemResults(elements);
    var itemList: seq<PenaltyItem> := [];
    for i := 0 to |elements|
      invariant AllSome(results[..i]) == Some(itemList)
    {
      var itemObj := ObjectElement(elements[i]);
      if itemObj.None? {
        AllSomeFails(results, i);
        return None;
      }
      var item := PenaltyItem(OptString(itemObj.value, "id", ""), OptString(itemObj.value, "text", ""));
      AllSomeStep(results, i, itemList, item);
      itemList := itemList + [item];
    }
    assert results[..|elements|] == results;
    return Some(itemList);
  }

  /** A failure among the first keys fails the whole run. */
  lemma {:induction false} SectionsUpToFails(sectionsObj: seq<Member>, keys: seq<string>, k: nat)
    requires k <= |keys| && SectionsUpTo(sectionsObj, keys[..k]) == None
    ensures SectionsUpTo(sectionsObj, keys) == None
    decreases |keys| - k
  {
    if k == |keys| {
      assert keys[..k] == keys;
    } else {
      assert keys[..k + 1][..k] == keys[..k];
      SectionsUpToFails(sectionsObj, keys, k + 1);
    }
  }

  /** One pass of the `sections` loop over a key that does not end in
      ".1": the section object, its fields and its items. */
  method LoadSection(sectionsObj: seq<Member>, secKey: string) returns (r: Option<PenaltySection>)
    ensures r == SectionOf(sectionsObj, secKey)
  {
    var secObj := ObjectAt(sectionsObj, secKey);
    if secObj.None? {
      return None;
    }
    var secTitle := OptString(secObj.value, "title", "");
    var penalty := NullableString(secObj.value, "penalty");
    var description := NullableString(secObj.value, "description");
    var itemList := LoadItems(secObj.value);
    if itemList.None? {
      return None;
    }
    return Some(PenaltySection(secKey, secTitle, penalty, description, itemList.value));
  }

  lemma SectionsUpToStep(sectionsObj: seq<Member>, keys: seq<string>, k: nat, list: seq<PenaltySection>)
    requires k < |keys| && SectionsUpTo(sectionsObj, keys[..k]) == Some(list)
    ensures SectionsUpTo(sectionsObj, keys[..k + 1])
      == if Strings.EndsWith(keys[k], ".1") then Some(list)
         else match SectionOf(sectionsObj, keys[k])
              case None => None
              case Some(section) => Some(list + [section])
  {
    assert keys[..k + 1][..k] == keys[..k];
  }

  /** The `sections` loop, with its `continue` on keys ending in ".1". */
  method LoadSections(sectionsObj: seq<Member>) returns (r: Option<seq<PenaltySection>>)
    ensures r == SectionsUpTo(sectionsObj, VersionSortedKeys(sectionsObj))
  {
    var sectionKeys := VersionSortedKeys(sectionsObj);
    var sectionList: seq<PenaltySection> := [];
    for k := 0 to |sectionKeys|
      invariant SectionsUpTo(sectionsObj, sectionKeys[..k]) == Some(sectionList)
    {
      var secKey := sectionKeys[k];
      SectionsUpToStep(sectionsObj, sectionKeys, k, sectionList);
      if Strings.EndsWith(secKey, ".1") {
        continue;
      }
      var section := LoadSection(sectionsObj, secKey);
      if section.None? {
        SectionsUpToFails(sectionsObj, sectionKeys, k + 1);
        return None;
      }
      sectionList := sectionList + [section.value];
    }
    assert sectionKeys[..|sectionKeys|] == sectionKeys;
    return Some(sectionList);
  }

  /** One pass of the categories loop: the category object, its title and
      its sections. */
  method LoadCategory(rootObj: seq<Member>, catKey: string) returns (r: Option<PenaltyCategory>)
    ensures r == CategoryOf(rootObj, catKey)
  {
    var catObj := ObjectAt(rootObj, catKey);
    if catObj.None? {
      return None;
    }
    var title := OptString(catObj.value, "title", "");
    var sectionsObj := ObjectAt(catObj.value, "sections");
    var sectionList: seq<PenaltySection> := [];
    if sectionsObj.Some? {
      var loaded := LoadSections(sectionsObj.value);
      if loaded.None? {
        return None;
      }
      sectionList := loaded.value;
    }
    return Some(PenaltyCategory(catKey, title, sectionList));
  }

  /** `loadPenaltiesFromAssets`: the categories loop. An exception ends the
      load and keeps the categories already added. */
  method LoadPenaltiesFromAssets(root: Json) returns (result: seq<PenaltyCategory>)
    ensures result == LoadPenalties(root)
  {
    result := [];
    if !root.Obj? {
      return;
    }
    var rootObj := root.members;
    var categoryKeys := VersionSortedKeys(rootObj);
    ghost var results := CategoryResults(rootObj, categoryKeys);
    for c := 0 to |categoryKeys|
      invariant |result| == c
      invariant forall j :: 0 <= j < c ==> results[j] == Some(result[j])
    {
      var category := LoadCategory(rootObj, categoryKeys[c]);
      if category.None? {
        TakeWhileSomeIs(results, result);
        return;
      }
      SomePrefixStep(results, result, category.value);
      result := result + [category.value];
    }
    TakeWhileSomeIs(results, result);
  }

  // ---------------------------------------------------------------------------
  // What the load keeps
  // ---------------------------------------------------------------------------

  /** The keys that survive the `continue` on a ".1" ending, in order. */
  function Kept(keys: seq<string>): seq<string>
    decreases |keys|
  {
    if keys == [] then []
    else
      var key := keys[|keys| - 1];
      Kept(keys[..|keys| - 1]) + (if Strings.EndsWith(key, ".1") then [] else [key])
  }

  /** A key is kept as often as it occurs, unless it ends in ".1". */
  lemma {:induction false} KeptCount(keys: seq<string>, x: string)
    ensures multiset(Kept(keys))[x] == if Strings.EndsWith(x, ".1") then 0 else multiset(keys)[x]
    decreases |keys|
  {
    if keys != [] {
      var init := keys[..|keys| - 1];
      KeptCount(init, x);
      assert keys == init + [keys[|keys| - 1]];
    }
  }

  /** Passing over keys keeps the order of the rest. */
  lemma {:induction false} KeptSorted(keys: seq<string>, le: (string, string) -> bool)
    requires Sorting.SortedBy(keys, le)
    ensures Sorting.SortedBy(Kept(keys), le)
    decreases |keys|
  {
    if keys != [] {
      var init := keys[..|keys| - 1];
      var key := keys[|keys| - 1];
      KeptSorted(init, le);
      if !Strings.EndsWith(key, ".1") {
        forall x | x in Kept(init) ensures le(x, key) {
          KeptCount(init, x);
          assert x in multiset(Kept(init));
          var i :| 0 <= i < |init| && init[i] == x;
          assert keys[i] == x;
        }
      }
    }
  }

  function SectionIds(sections: seq<PenaltySection>): (ids: seq<string>)
    ensures |ids| == |sections| && forall j :: 0 <= j < |sections| ==> ids[j] == sections[j].id
  {
    seq(|sections|, j requires 0 <= j < |sections| => sections[j].id)
  }

  /** A run that succeeds holds, for each kept key in order, the section read
      under that key. */
  lemma SectionsUpToKeys(sectionsObj: seq<Member>, keys: seq<string>, sections: seq<PenaltySection>)
    requires SectionsUpTo(sectionsObj, keys) == Some(sections)
    ensures SectionIds(sections) == Kept(keys)
    ensures forall j :: 0 <= j < |sections| ==> SectionOf(sectionsObj, sections[j].id) == Some(sections[j])
  {
    SectionsUpToIds(sectionsObj, keys, sections);
    SectionsUpToRead(sectionsObj, keys, sections);
  }

  lemma {:induction false} SectionsUpToIds(sectionsObj: seq<Member>, keys: seq<string>, sections: seq<PenaltySection>)
    requires SectionsUpTo(sectionsObj, keys) == Some(sections)
    ensures SectionIds(sections) == Kept(keys)
    decreases |keys|
  {
    if keys != [] {
      var init := keys[..|keys| - 1];
      var key := keys[|keys| - 1];
      SectionsUpToLast(sectionsObj, keys, sections);
      var list := SectionsUpTo(sectionsObj, init).value;
      SectionsUpToIds(sectionsObj, init, list);
      if !Strings.EndsWith(key, ".1") {
        SectionIdsLast(list, sections[|sections| - 1]);
      }
    }
  }

  lemma {:induction false} SectionsUpToRead(sectionsObj: seq<Member>, keys: seq<string>, sections: seq<PenaltySection>)
    requires SectionsUpTo(sectionsObj, keys) == Some(sections)
    ensures forall j :: 0 <= j < |sections| ==> SectionOf(sectionsObj, sections[j].id) == Some(sections[j])
    decreases |keys|
  {
    if keys != [] {
      SectionsUpToLast(sectionsObj, keys, sections);
      var list := SectionsUpTo(sectionsObj, keys[..|keys| - 1]).value;
      SectionsUpToRead(sectionsObj, keys[..|keys| - 1], list);
    }
  }

  /** The run over one more key: the same sections, or one more, read under
      that key, when the key does not end in ".1". */
  lemma SectionsUpToLast(sectionsObj: seq<Member>, keys: seq<string>, sections: seq<PenaltySection>)
    requires keys != [] && SectionsUpTo(sectionsObj, keys) == Some(sections)
    ensures SectionsUpTo(sectionsObj, keys[..|keys| - 1]).Some?
    ensures var list := SectionsUpTo(sectionsObj, keys[..|keys| - 1]).value;
      var key := keys[|keys| - 1];
      && Kept(keys) == Kept(keys[..|keys| - 1]) + (if Strings.EndsWith(key, ".1") then [] else [key])
      && (Strings.EndsWith(key, ".1") ==> sections == list)
      && (!Strings.EndsWith(key, ".1") ==>
            && SectionOf(sectionsObj, key).Some?
            && sections == list + [SectionOf(sectionsObj, key).value]
            && sections[|sections| - 1].id == key)
  {
  }

  lemma SectionIdsLast(list: seq<PenaltySection>, section: PenaltySection)
    ensures SectionIds(list + [section]) == SectionIds(list) + [section.id]
  {
  }

  /** Sections read under the kept keys come in `compareVersionStrings`
      order of their ids. */
  lemma SectionsInOrder(sectionsObj: seq<Member>, sections: seq<PenaltySection>)
    requires SectionIds(sections) == Kept(VersionSortedKeys(sectionsObj))
    ensures forall i, j :: 0 <= i < j < |sections| ==> Compare(sections[i].id, sections[j].id) <= 0
  {
    VersionLeIsTotalPreorder();
    Sorting.InsertionSortSorted(Keys(sectionsObj), VersionLe);
    KeptSorted(VersionSortedKeys(sectionsObj), VersionLe);
    assert forall i, j :: 0 <= i < j < |sections| ==> VersionLe(SectionIds(sections)[i], SectionIds(sections)[j]);
  }

  /** Sections read under the kept keys: one per key not ending in ".1", as
      often as the key occurs. */
  lemma SectionsCounted(sectionsObj: seq<Member>, sections: seq<PenaltySection>)
    requires SectionIds(sections) == Kept(VersionSortedKeys(sectionsObj))
    ensures forall x :: multiset(SectionIds(sections))[x]
                          == if Strings.EndsWith(x, ".1") then 0 else multiset(Keys(sectionsObj))[x]
  {
    forall x ensures multiset(SectionIds(sections))[x]
                      == if Strings.EndsWith(x, ".1") then 0 else multiset(Keys(sectionsObj))[x] {
      KeptCount(VersionSortedKeys(sectionsObj), x);
    }
  }

  /** A loaded category's sections: one per key of its `sections` object not
      ending in ".1", as often as the key occurs, in `compareVersionStrings`
      order, each read from its own key. */
  lemma CategorySections(rootObj: seq<Member>, key: string, category: PenaltyCategory)
    requires CategoryOf(rootObj, key) == Some(category)
    ensures category.id == key
    ensures ObjectAt(ObjectAt(rootObj, key).value, "sections").None? ==> category.sections == []
    ensures ObjectAt(ObjectAt(rootObj, key).value, "sections").Some? ==>
      var sectionsObj := ObjectAt(ObjectAt(rootObj, key).value, "sections").value;
      && SectionIds(category.sections) == Kept(VersionSortedKeys(sectionsObj))
      && (forall x :: multiset(SectionIds(category.sections))[x]
                        == if Strings.EndsWith(x, ".1") then 0 else multiset(Keys(sectionsObj))[x])
      && (forall i, j :: 0 <= i < j < |category.sections| ==>
                        Compare(category.sections[i].id, category.sections[j].id) <= 0)
      && (forall j :: 0 <= j < |category.sections| ==>
                        SectionOf(sectionsObj, category.sections[j].id) == Some(category.sections[j]))
  {
    var categoryObj := ObjectAt(rootObj, key).value;
    if ObjectAt(categoryObj, "sections").Some? {
      var sectionsObj := ObjectAt(categoryObj, "sections").value;
      SectionsUpToKeys(sectionsObj, VersionSortedKeys(sectionsObj), category.sections);
      SectionsCounted(sectionsObj, category.sections);
      SectionsInOrder(sectionsObj, category.sections);
    }
  }

  /** The load keeps the categories before the first one that fails, in
      `compareVersionStrings` order of their keys; when none fails it keeps
      one per key. */
  lemma LoadedCategories(root: Json)
    requires root.Obj?
    ensures var keys := VersionSortedKeys(root.members);
      var loaded := LoadPenalties(root);
      && |loaded| <= |keys|
      && (forall k :: 0 <= k < |loaded| ==> CategoryOf(root.members, keys[k]) == Some(loaded[k]))
      && (|loaded| < |keys| ==> CategoryOf(root.members, keys[|loaded|]).None?)
      && (forall i, j :: 0 <= i < j < |loaded| ==> Compare(loaded[i].id, loaded[j].id) <= 0)
      && ((forall k :: 0 <= k < |keys| ==> CategoryOf(root.members, keys[k]).Some?) ==> |loaded| == |keys|)
  {
    var keys := VersionSortedKeys(root.members);
    var loaded := LoadPenalties(root);
    VersionLeIsTotalPreorder();
    Sorting.InsertionSortSorted(Keys(root.members), VersionLe);
    forall k | 0 <= k < |loaded| ensures loaded[k].id == keys[k] {
      CategorySections(root.members, keys[k], loaded[k]);
    }
  }

  /** A section's items follow the `items` array one for one, with `""` for a
      missing id or text; without an array there are none. */
  lemma ItemsFollowArray(sectionObj: seq<Member>, items: seq<PenaltyItem>)
    requires ItemsOf(sectionObj) == Some(items)
    ensures ArrayAt(sectionObj, "items").None? ==> items == []
    ensures ArrayAt(sectionObj, "items").Some? ==>
      var elements := ArrayAt(sectionObj, "items").value;
      && |items| == |elements|
      && forall i :: 0 <= i < |elements| ==>
           && elements[i].Obj?
           && items[i] == PenaltyItem(OptString(elements[i].members, "id", ""), OptString(elements[i].members, "text", ""))
  {
    if ArrayAt(sectionObj, "items").Some? {
      var elements := ArrayAt(sectionObj, "items").value;
      AllSomeValues(ItemResults(elements), items);
    }
  }

  // ---------------------------------------------------------------------------
  // flatItems
  // ---------------------------------------------------------------------------

  function SectionRows(sections: seq<PenaltySection>): (rows: seq<PenaltyDisplayItem>)
    ensures |rows| == |sections| && forall j :: 0 <= j < |sections| ==> rows[j] == SectionItem(sections[j])
  {
    seq(|sections|, j requires 0 <= j < |sections| => SectionItem(sections[j]))
  }

  /** Each category's header row, then one row per section. */
  function DisplayItems(categories: seq<PenaltyCategory>): seq<PenaltyDisplayItem>
    decreases |categories|
  {
    if categories == [] then []
    else
      var cat := categories[|categories| - 1];
      DisplayItems(categories[..|categories| - 1]) + [CategoryHeaderItem(cat)] + SectionRows(cat.sections)
  }

  /** How many sections the categories hold together. */
  function SectionCount(categories: seq<PenaltyCategory>): nat
    decreases |categories|
  {
    if categories == [] then 0
    else SectionCount(categories[..|categories| - 1]) + |categories[|categories| - 1].sections|
  }

  /** `flatItems`: the nested `forEach` appending to the list. */
  method FlattenPenalties(categories: seq<PenaltyCategory>) returns (list: seq<PenaltyDisplayItem>)
    ensures list == DisplayItems(categories)
  {
    list := [];
    for c := 0 to |categories|
      invariant list == DisplayItems(categories[..c])
    {
      var cat := categories[c];
      assert categories[..c + 1][..c] == categories[..c];
      list := list + [CategoryHeaderItem(cat)];
      for j := 0 to |cat.sections|
        invariant list == DisplayItems(categories[..c]) + [CategoryHeaderItem(cat)] + SectionRows(cat.sections[..j])
      {
        assert SectionRows(cat.sections[..j + 1]) == SectionRows(cat.sections[..j]) + [SectionItem(cat.sections[j])];
        list := list + [SectionItem(cat.sections[j])];
      }
      assert cat.sections[..|cat.sections|] == cat.sections;
    }
    assert categories[..|categories|] == categories;
  }

  /** One row per category and one per section. */
  lemma {:induction false} DisplayLength(categories: seq<PenaltyCategory>)
    ensures |DisplayItems(categories)| == |categories| + SectionCount(categories)
    decreases |categories|
  {
    if categories != [] {
      DisplayLength(categories[..|categories| - 1]);
    }
  }

  /** The rows of the first categories begin the rows of all of them. */
  lemma {:induction false} DisplayPrefix(categories: seq<PenaltyCategory>, k: nat)
    requires k <= |categories|
    ensures DisplayItems(categories[..k]) <= DisplayItems(categories)
    decreases |categories| - k
  {
    if k < |categories| {
      DisplayPrefix(categories, k + 1);
      assert categories[..k + 1][..k] == categories[..k];
    } else {
      assert categories[..k] == categories;
    }
  }

  /** Where category `k`'s header row is. */
  function HeaderIndex(categories: seq<PenaltyCategory>, k: nat): nat
    requires k <= |categories|
  {
    k + SectionCount(categories[..k])
  }

  lemma DisplaySnoc(categories: seq<PenaltyCategory>, k: nat)
    requires k < |categories|
    ensures DisplayItems(categories[..k + 1])
      == DisplayItems(categories[..k]) + [CategoryHeaderItem(categories[k])] + SectionRows(categories[k].sections)
  {
    assert categories[..k + 1][..k] == categories[..k];
  }

  /** A prefix of `all` made of `before`, one row and `rows` places that row
      at `at`, the length of `before`, and those rows right after it. */
  lemma PrefixPlaces<T>(all: seq<T>, before: seq<T>, h: T, rows: seq<T>, at: nat)
    requires before + [h] + rows <= all && at == |before|
    ensures at + |rows| < |all|
    ensures all[at] == h
    ensures forall j :: 0 <= j < |rows| ==> all[at + 1 + j] == rows[j]
  {
    var pre := before + [h] + rows;
    assert pre[at] == h;
    forall j | 0 <= j < |rows| ensures all[at + 1 + j] == rows[j] {
      assert pre[at + 1 + j] == rows[j];
    }
  }

  /** The rows before category `k`'s header: one per earlier category and
      one per earlier section. */
  lemma HeaderIndexIsLength(categories: seq<PenaltyCategory>, k: nat)
    requires k < |categories|
    ensures HeaderIndex(categories, k) == |DisplayItems(categories[..k])|
  {
    DisplayLength(categories[..k]);
  }

  /** Category `k`'s header row comes right before its sections' rows, in
      section order. */
  lemma DisplayLayout(categories: seq<PenaltyCategory>, k: nat)
    requires k < |categories|
    ensures HeaderIndex(categories, k) + |categories[k].sections| < |DisplayItems(categories)|
    ensures DisplayItems(categories)[HeaderIndex(categories, k)] == CategoryHeaderItem(categories[k])
    ensures forall j :: 0 <= j < |categories[k].sections| ==>
      DisplayItems(categories)[HeaderIndex(categories, k) + 1 + j] == SectionItem(categories[k].sections[j])
  {
    var before := DisplayItems(categories[..k]);
    var rows := SectionRows(categories[k].sections);
    assert before + [CategoryHeaderItem(categories[k])] + rows <= DisplayItems(categories) by {
      DisplaySnoc(categories, k);
      DisplayPrefix(categories, k + 1);
    }
    HeaderIndexIsLength(categories, k);
    PrefixPlaces(DisplayItems(categories), before, CategoryHeaderItem(categories[k]), rows, HeaderIndex(categories, k));
  }

  // ---------------------------------------------------------------------------
  // scrollToId
  // ---------------------------------------------------------------------------

  function DisplayIds(items: seq<PenaltyDisplayItem>): (ids: seq<string>)
    ensures |ids| == |items| && forall i :: 0 <= i < |items| ==> ids[i] == items[i].Id()
  {
    seq(|items|, i requires 0 <= i < |items| => items[i].Id())
  }

  /** The row `scrollToId` scrolls to: the first with the id; no scroll when
      there is none. */
  function ScrollTarget(items: seq<PenaltyDisplayItem>, id: string): (r: Option<nat>)
    ensures r.None? <==> forall i :: 0 <= i < |items| ==> items[i].Id() != id
    ensures r.Some? ==> r.value < |items| && items[r.value].Id() == id
    ensures r.Some? ==> forall j :: 0 <= j < r.value ==> items[j].Id() != id
  {
    var index := Strings.IndexOfFirst(DisplayIds(items), id);
    if index >= 0 then Some(index) else None
  }

  // ---------------------------------------------------------------------------
  // getPenaltyColor
  // ---------------------------------------------------------------------------

  /** The colour classes of `getPenaltyColor`: green, amber, red and grey. */
  datatype PenaltyColor = Green | Amber | Red | Gray

  predicate Mentions(penalty: string, phrase: string) {
    Strings.ContainsIgnoreCase(penalty, phrase)
  }

  predicate MentionsLoss(penalty: string) {
    Mentions(penalty, "Game Loss") || Mentions(penalty, "Disqualification") || Mentions(penalty, "Match Loss")
  }

  /** The first phrase found decides, ignoring case: "No Penalty" wins over
      "Warning", which wins over the three losses. */
  function PenaltyColorOf(penalty: string): (c: PenaltyColor)
    ensures c == Green <==> Mentions(penalty, "No Penalty")
    ensures c == Amber <==> !Mentions(penalty, "No Penalty") && Mentions(penalty, "Warning")
    ensures c == Red <==> !Mentions(penalty, "No Penalty") && !Mentions(penalty, "Warning") && MentionsLoss(penalty)
    ensures c == Gray <==> !Mentions(penalty, "No Penalty") && !Mentions(penalty, "Warning") && !MentionsLoss(penalty)
  {
    if Mentions(penalty, "No Penalty") then Green
    else if Mentions(penalty, "Warning") then Amber
    else if Mentions(penalty, "Game Loss") then Red
    else if Mentions(penalty, "Disqualification") then Red
    else if Mentions(penalty, "Match Loss") then Red
    else Gray
  }

  /** The penalty line of a section card is shown only for a penalty that is
      present and not blank, in the colour of its class. */
  function PenaltyLine(section: PenaltySection): (r: Option<PenaltyColor>)
    ensures r.Some? <==> section.penalty.Some? && !Strings.IsBlank(section.penalty.value)
    ensures r.Some? ==> r.value == PenaltyColorOf(section.penalty.value)
  {
    if section.penalty.None? || Strings.IsBlank(section.penalty.value) then None
    else Some(PenaltyColorOf(section.penalty.value))
  }
}
