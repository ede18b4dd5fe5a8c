/** The rulebook screen's loader, `loadRulesFromAssets`: it walks
    `sections -> subsections -> subsubsections` of the parsed rule document and
    builds the flat list of rows the screen renders and the two-level outline
    its drawer shows. Keys at every level are visited in plain string order
    (`sorted()`); an exception anywhere collapses the result to two empty lists. */
module RuleDocument {
  import opened Wrappers
  import opened Json
  import Strings
  import Sorting

  // ---------------------------------------------------------------------------
  // Data model
  // ---------------------------------------------------------------------------

  datatype RuleType = SectionHeader | SubsectionHeader | Rule

  /** One row of the rendered list; `kind` is the source's `type`. */
  datatype FlatRuleItem = FlatRuleItem(id: string, title: string, text: string, kind: RuleType, indentation: int)

  datatype DrawerSubsection = DrawerSubsection(id: string, title: string)

  datatype DrawerSection = DrawerSection(id: string, title: string, subsections: seq<DrawerSubsection>)

  /** The keys of an object in the order `keys().asSequence().sorted()` gives. */
  function SortedKeys(members: seq<Member>): seq<string> {
    Sorting.InsertionSort(Keys(members), Strings.LexLessEq)
  }

  /** The sorted keys of the object stored under `field`; none when there is
      no such object (the source then skips the level). */
  function ChildKeys(obj: seq<Member>, field: string): seq<string> {
    match ObjectAt(obj, field)
    case None => []
    case Some(child) => SortedKeys(child)
  }

  /** The text shown in the drawer for an entry: its key, a space, its title. */
  function DisplayTitle(key: string, title: string): string {
    key + " " + title
  }

  function SubsectionIds(subs: seq<DrawerSubsection>): seq<string> {
    seq(|subs|, i requires 0 <= i < |subs| => subs[i].id)
  }

  /** The first components of a run of blocks, in order. */
  function Heads<A>(blocks: seq<(A, seq<FlatRuleItem>)>): (r: seq<A>)
    ensures |r| == |blocks|
    ensures forall j :: 0 <= j < |blocks| ==> r[j] == blocks[j].0
    decreases |blocks|
  {
    if blocks == [] then [] else Heads(blocks[..|blocks| - 1]) + [blocks[|blocks| - 1].0]
  }

  /** The rows of a run of blocks, one block after the other. */
  function Flatten<A>(blocks: seq<(A, seq<FlatRuleItem>)>): seq<FlatRuleItem>
    decreases |blocks|
  {
    if blocks == [] then [] else Flatten(blocks[..|blocks| - 1]) + blocks[|blocks| - 1].1
  }

  // ---------------------------------------------------------------------------
  // The traversal, one level at a time. `None` is an exception in the source.
  // ---------------------------------------------------------------------------

  /** One rule of a subsection: `title` optional, `text` required. */
  function RuleItem(rules: seq<Member>, key: string): Option<FlatRuleItem> {
    match ObjectAt(rules, key)
    case None => None
    case Some(ruleObj) =>
      match GetString(ruleObj, "text")
      case None => None
      case Some(text) =>
        Some(FlatRuleItem(key, OptString(ruleObj, "title", ""), text, Rule, Strings.CountChar(key, '.') + 1))
  }

  function RuleResults(rules: seq<Member>, keys: seq<string>): seq<Option<FlatRuleItem>> {
    seq(|keys|, i requires 0 <= i < |keys| => RuleItem(rules, keys[i]))
  }

  /** The rules under a subsection (none when it has no `subsubsections` object). */
  function SubsectionRules(subObj: seq<Member>): Option<seq<FlatRuleItem>> {
    match ObjectAt(subObj, "subsubsections")
    case None => Some([])
    case Some(rules) => AllSome(RuleResults(rules, SortedKeys(rules)))
  }

  /** A subsection's drawer entry and its rows: its header, then its rules. */
  function SubsectionBlock(subs: seq<Member>, key: string): Option<(DrawerSubsection, seq<FlatRuleItem>)> {
    match ObjectAt(subs, key)
    case None => None
    case Some(subObj) =>
      match GetString(subObj, "title")
      case None => None
      case Some(title) =>
        match SubsectionRules(subObj)
        case None => None
        case Some(rules) =>
          var header := FlatRuleItem(key, title, OptString(subObj, "content", ""), SubsectionHeader, 1);
          Some((DrawerSubsection(key, DisplayTitle(key, title)), [header] + rules))
  }

  function SubsectionResults(subs: seq<Member>, keys: seq<string>): seq<Option<(DrawerSubsection, seq<FlatRuleItem>)>> {
    seq(|keys|, i requires 0 <= i < |keys| => SubsectionBlock(subs, keys[i]))
  }

  /** The subsections of a section (none when it has no `subsections` object). */
  function SectionSubsections(secObj: seq<Member>): Option<(seq<DrawerSubsection>, seq<FlatRuleItem>)> {
    match ObjectAt(secObj, "subsections")
    case None => Some(([], []))
    case Some(subs) =>
      match AllSome(SubsectionResults(subs, SortedKeys(subs)))
      case None => None
      case Some(blocks) => Some((Heads(blocks), Flatten(blocks)))
  }

  /** A section's drawer entry and its rows: its header, then its subsections. */
  function SectionBlock(secs: seq<Member>, key: string): Option<(DrawerSection, seq<FlatRuleItem>)> {
    match ObjectAt(secs, key)
    case None => None
    case Some(secObj) =>
      match GetString(secObj, "title")
      case None => None
      case Some(title) =>
        match SectionSubsections(secObj)
        case None => None
        case Some(subs) =>
          var header := FlatRuleItem(key, title, OptString(secObj, "intro", ""), SectionHeader, 0);
          Some((DrawerSection(key, DisplayTitle(key, title), subs.0), [header] + subs.1))
  }

  function SectionResults(secs: seq<Member>, keys: seq<string>): seq<Option<(DrawerSection, seq<FlatRuleItem>)>> {
    seq(|keys|, i requires 0 <= i < |keys| => SectionBlock(secs, keys[i]))
  }

  /** The whole document, or `None` when the source would throw. A root
      without `sections` is not an exception: it yields two empty lists. */
  function Loaded(root: Json): Option<(seq<DrawerSection>, seq<FlatRuleItem>)> {
    if !root.Obj? then None
    else if !Has(root.members, "sections") then Some(([], []))
    else
      match ObjectAt(root.members, "sections")
      case None => None
      case Some(secs) =>
        match AllSome(SectionResults(secs, SortedKeys(secs)))
        case None => None
        case Some(blocks) => Some((Heads(blocks), Flatten(blocks)))
  }

  /** `(drawerSections, flatRules)` as `loadRulesFromAssets` returns them. */
  function LoadRules(root: Json): (r: (seq<DrawerSection>, seq<FlatRuleItem>))
    ensures !root.Obj? || !Has(root.members, "sections") ==> r == ([], [])
  {
    Loaded(root).GetOr(([], []))
  }

  // ---------------------------------------------------------------------------
  // The loader as the source writes it: nested loops appending to lists
  // ---------------------------------------------------------------------------

  method LoadRulesFromAssets(root: Json) returns (drawerSections: seq<DrawerSection>, flatRules: seq<FlatRuleItem>)
    ensures (drawerSections, flatRules) == LoadRules(root)
  {
    if !root.Obj? {
      return [], [];
    }
    var rootObj := root.members;
    if !Has(rootObj, "sections") {
      return [], [];
    }
    var sectionsOpt := ObjectAt(rootObj, "sections");
    if sectionsOpt.None? {
      return [], [];
    }
    var sectionsObj := sectionsOpt.value;
    drawerSections, flatRules := [], [];
    var sectionKeys := SortedKeys(sectionsObj);
    ghost var results := SectionResults(sectionsObj, sectionKeys);
    ghost var blocks: seq<(DrawerSection, seq<FlatRuleItem>)> := [];
    var i := 0;
    while i < |sectionKeys|
      invariant 0 <= i <= |sectionKeys|
      invariant AllSome(results[..i]) == Some(blocks)
      invariant drawerSections == Heads(blocks) && flatRules == Flatten(blocks)
    {
      var sectionKey := sectionKeys[i];
      var sectionObjOpt := ObjectAt(sectionsObj, sectionKey);
      if sectionObjOpt.None? {
        AllSomeFails(results, i);
        return [], [];
      }
      var sectionObj := sectionObjOpt.value;
      var sectionTitleOpt := GetString(sectionObj, "title");
      if sectionTitleOpt.None? {
        AllSomeFails(results, i);
        return [], [];
      }
      var sectionTitle := sectionTitleOpt.value;
      var sectionIntro := OptString(sectionObj, "intro", "");
      var subsections := LoadSubsections(sectionObj);
      if subsections.None? {
        AllSomeFails(results, i);
        return [], [];
      }
      var header := FlatRuleItem(sectionKey, sectionTitle, sectionIntro, SectionHeader, 0);
      var entry := DrawerSection(sectionKey, DisplayTitle(sectionKey, sectionTitle), subsections.value.0);
      AllSomeStep(results, i, blocks, (entry, [header] + subsections.value.1));
      blocks := blocks + [(entry, [header] + subsections.value.1)];
      flatRules := flatRules + ([header] + subsections.value.1);
      drawerSections := drawerSections + [entry];
      i := i + 1;
    }
    assert results[..i] == results;
  }

  /** The loop over one section's `subsections`; `None` is an exception. */
  method LoadSubsections(sectionObj: seq<Member>) returns (r: Option<(seq<DrawerSubsection>, seq<FlatRuleItem>)>)
    ensures r == SectionSubsections(sectionObj)
  {
    var subsectionsOpt := ObjectAt(sectionObj, "subsections");
    if subsectionsOpt.None? {
      return Some(([], []));
    }
    var subsectionsObj := subsectionsOpt.value;
    var subsectionsList: seq<DrawerSubsection> := [];
    var rows: seq<FlatRuleItem> := [];
    var subKeys := SortedKeys(subsectionsObj);
    ghost var results := SubsectionResults(subsectionsObj, subKeys);
    ghost var blocks: seq<(DrawerSubsection, seq<FlatRuleItem>)> := [];
    var j := 0;
    while j < |subKeys|
      invariant 0 <= j <= |subKeys|
      invariant AllSome(results[..j]) == Some(blocks)
      invariant subsectionsList == Heads(blocks) && rows == Flatten(blocks)
    {
      var subKey := subKeys[j];
      var subObjOpt := ObjectAt(subsectionsObj, subKey);
      if subObjOpt.None? {
        AllSomeFails(results, j);
        return None;
      }
      var subObj := subObjOpt.value;
      var subTitleOpt := GetString(subObj, "title");
      if subTitleOpt.None? {
        AllSomeFails(results, j);
        return None;
      }
      var subTitle := subTitleOpt.value;
      var subContent := OptString(subObj, "content", "");
      var ruleRows := LoadSubsectionRules(subObj);
      if ruleRows.None? {
        AllSomeFails(results, j);
        return None;
      }
      var entry := DrawerSubsection(subKey, DisplayTitle(subKey, subTitle));
      var header := FlatRuleItem(subKey, subTitle, subContent, SubsectionHeader, 1);
      AllSomeStep(results, j, blocks, (entry, [header] + ruleRows.value));
      blocks := blocks + [(entry, [header] + ruleRows.value)];
      subsectionsList := subsectionsList + [entry];
      rows := rows + ([header] + ruleRows.value);
      j := j + 1;
    }
    assert results[..j] == results;
    return Some((subsectionsList, rows));
  }

  /** The loop over one subsection's `subsubsections`. */
  method LoadSubsectionRules(subObj: seq<Member>) returns (r: Option<seq<FlatRuleItem>>)
    ensures r == SubsectionRules(subObj)
  {
    var subSubOpt := ObjectAt(subObj, "subsubsections");
    if subSubOpt.None? {
      return Some([]);
    }
    var subSubObj := subSubOpt.value;
    var rows: seq<FlatRuleItem> := [];
    var ruleKeys := SortedKeys(subSubObj);
    ghost var results := RuleResults(subSubObj, ruleKeys);
    var k := 0;
    while k < |ruleKeys|
      invariant 0 <= k <= |ruleKeys|
      invariant AllSome(results[..k]) == Some(rows)
    {
      var itemOpt := LoadRule(subSubObj, ruleKeys[k]);
      assert results[k] == itemOpt;
      if itemOpt.None? {
        AllSomeFails(results, k);
        return None;
      }
      AllSomeStep(results, k, rows, itemOpt.value);
      rows := rows + [itemOpt.value];
      k := k + 1;
    }
    assert results[..k] == results;
    return Some(rows);
  }

  /** The body of that loop: one rule's row, or the exception it throws. */
  method LoadRule(subSubObj: seq<Member>, ruleKey: string) returns (r: Option<FlatRuleItem>)
    ensures r == RuleItem(subSubObj, ruleKey)
  {
    var ruleObjOpt := ObjectAt(subSubObj, ruleKey);
    if ruleObjOpt.None? {
      return None;
    }
    var ruleObj := ruleObjOpt.value;
    var ruleTitle := OptString(ruleObj, "title", "");
    var ruleTextOpt := GetString(ruleObj, "text");
    if ruleTextOpt.None? {
      return None;
    }
    var dots := Strings.CountChar(ruleKey, '.');
    return Some(FlatRuleItem(ruleKey, ruleTitle, ruleTextOpt.value, Rule, dots + 1));
  }

  // ---------------------------------------------------------------------------
  // Key order
  // ---------------------------------------------------------------------------

  /** Every level is visited in ascending plain-string order, each key once. */
  lemma SortedKeysOrdered(members: seq<Member>)
    ensures Sorting.SortedBy(SortedKeys(members), Strings.LexLessEq)
    ensures multiset(SortedKeys(members)) == multiset(Keys(members))
  {
    Strings.LexLessEqIsTotalOrder();
    Sorting.InsertionSortSorted(Keys(members), Strings.LexLessEq);
  }

  /** The position a present key takes among the sorted keys. */
  lemma SortedKeyIndex(members: seq<Member>, key: string) returns (i: nat)
    requires Has(members, key)
    ensures i < |SortedKeys(members)| && SortedKeys(members)[i] == key
  {
    Sorting.InsertionSortSameElements(Keys(members), Strings.LexLessEq, key);
    i :| i < |SortedKeys(members)| && SortedKeys(members)[i] == key;
  }

  // ---------------------------------------------------------------------------
  // All or nothing: one entry that throws empties the whole document
  // ---------------------------------------------------------------------------

  /** With a `sections` object, loading fails exactly when one section fails. */
  lemma LoadFailsIffSectionFails(root: Json, secs: seq<Member>)
    requires root.Obj? && ObjectAt(root.members, "sections") == Some(secs)
    ensures Loaded(root).None? <==>
      exists k :: 0 <= k < |SortedKeys(secs)| && SectionBlock(secs, SortedKeys(secs)[k]).None?
  {
    var keys := SortedKeys(secs);
    var results := SectionResults(secs, keys);
    AllSomeFailsIff(results);
    if AllSome(results).None? {
      var k :| 0 <= k < |results| && results[k].None?;
      assert SectionBlock(secs, keys[k]).None?;
    } else {
      forall k | 0 <= k < |keys| ensures SectionBlock(secs, keys[k]).Some? {
        assert results[k] == SectionBlock(secs, keys[k]);
      }
    }
  }

  lemma FailingSectionEmptiesDocument(root: Json, secs: seq<Member>, key: string)
    requires root.Obj? && ObjectAt(root.members, "sections") == Some(secs)
    requires Has(secs, key) && SectionBlock(secs, key).None?
    ensures LoadRules(root) == ([], [])
  {
    var i := SortedKeyIndex(secs, key);
    AllSomeFails(SectionResults(secs, SortedKeys(secs)), i);
  }

  lemma SectionWithoutTitleEmptiesDocument(root: Json, secs: seq<Member>, key: string, sec: seq<Member>)
    requires root.Obj? && ObjectAt(root.members, "sections") == Some(secs)
    requires ObjectAt(secs, key) == Some(sec) && !Has(sec, "title")
    ensures LoadRules(root) == ([], [])
  {
    FailingSectionEmptiesDocument(root, secs, key);
  }

  lemma FailingSubsectionEmptiesDocument(root: Json, secs: seq<Member>, sk: string, sec: seq<Member>, subs: seq<Member>, uk: string)
    requires root.Obj? && ObjectAt(root.members, "sections") == Some(secs)
    requires ObjectAt(secs, sk) == Some(sec) && ObjectAt(sec, "subsections") == Some(subs)
    requires Has(subs, uk) && SubsectionBlock(subs, uk).None?
    ensures LoadRules(root) == ([], [])
  {
    var j := SortedKeyIndex(subs, uk);
    AllSomeFails(SubsectionResults(subs, SortedKeys(subs)), j);
    FailingSectionEmptiesDocument(root, secs, sk);
  }

  /** A single rule without `text`, however deep, empties the whole document. */
  lemma RuleWithoutTextEmptiesDocument(
    root: Json, secs: seq<Member>, sk: string, sec: seq<Member>, subs: seq<Member>, uk: string,
    sub: seq<Member>, rules: seq<Member>, rk: string, rule: seq<Member>)
    requires root.Obj? && ObjectAt(root.members, "sections") == Some(secs)
    requires ObjectAt(secs, sk) == Some(sec) && ObjectAt(sec, "subsections") == Some(subs)
    requires ObjectAt(subs, uk) == Some(sub) && ObjectAt(sub, "subsubsections") == Some(rules)
    requires ObjectAt(rules, rk) == Some(rule) && !Has(rule, "text")
    ensures LoadRules(root) == ([], [])
  {
    RuleFailsSubsection(subs, uk, sub, rules, rk, rule);
    FailingSubsectionEmptiesDocument(root, secs, sk, sec, subs, uk);
  }

  /** A rule without `text` makes its subsection fail. */
  lemma RuleFailsSubsection(subs: seq<Member>, uk: string, sub: seq<Member>, rules: seq<Member>, rk: string, rule: seq<Member>)
    requires ObjectAt(subs, uk) == Some(sub) && ObjectAt(sub, "subsubsections") == Some(rules)
    requires ObjectAt(rules, rk) == Some(rule) && !Has(rule, "text")
    ensures Has(subs, uk) && SubsectionBlock(subs, uk).None?
  {
    var k := SortedKeyIndex(rules, rk);
    var results := RuleResults(rules, SortedKeys(rules));
    assert results[k] == RuleItem(rules, rk) && RuleItem(rules, rk).None?;
    AllSomeFails(results, k);
    assert SubsectionRules(sub).None?;
  }

  // ---------------------------------------------------------------------------
  // Indentation
  // ---------------------------------------------------------------------------

  predicate IndentationOk(item: FlatRuleItem) {
    match item.kind
    case SectionHeader => item.indentation == 0
    case SubsectionHeader => item.indentation == 1
    case Rule => item.indentation == Strings.CountChar(item.id, '.') + 1
  }

  predicate AllIndented(items: seq<FlatRuleItem>) {
    forall i :: 0 <= i < |items| ==> IndentationOk(items[i])
  }

  predicate AllRules(items: seq<FlatRuleItem>) {
    forall i :: 0 <= i < |items| ==> items[i].kind == Rule
  }

  function RowIds(items: seq<FlatRuleItem>): seq<string> {
    seq(|items|, i requires 0 <= i < |items| => items[i].id)
  }

  lemma IndentedCons(x: FlatRuleItem, rest: seq<FlatRuleItem>)
    requires IndentationOk(x) && AllIndented(rest)
    ensures AllIndented([x] + rest)
  {
    assert forall i :: 1 <= i < |[x] + rest| ==> ([x] + rest)[i] == rest[i - 1];
  }

  lemma {:induction false} FlattenIndented<A>(blocks: seq<(A, seq<FlatRuleItem>)>)
    requires forall j :: 0 <= j < |blocks| ==> AllIndented(blocks[j].1)
    ensures AllIndented(Flatten(blocks))
    decreases |blocks|
  {
    if blocks != [] {
      FlattenIndented(blocks[..|blocks| - 1]);
    }
  }

  // ---------------------------------------------------------------------------
  // The drawer is the outline of the flat list
  // ---------------------------------------------------------------------------

  /** How the drawer reads one row: a section header opens a drawer section, a
      subsection header is listed under the last one, a rule is not listed. */
  function AddToOutline(d: seq<DrawerSection>, item: FlatRuleItem): seq<DrawerSection> {
    match item.kind
    case SectionHeader => d + [DrawerSection(item.id, DisplayTitle(item.id, item.title), [])]
    case SubsectionHeader =>
      if d == [] then d
      else
        var last := d[|d| - 1];
        d[..|d| - 1] + [last.(subsections := last.subsections + [DrawerSubsection(item.id, DisplayTitle(item.id, item.title))])]
    case Rule => d
  }

  function OutlineFrom(d: seq<DrawerSection>, items: seq<FlatRuleItem>): seq<DrawerSection>
    decreases |items|
  {
    if items == [] then d else AddToOutline(OutlineFrom(d, items[..|items| - 1]), items[|items| - 1])
  }

  /** The outline of a flat list, read row by row from the top. */
  function OutlineOf(flat: seq<FlatRuleItem>): seq<DrawerSection> {
    OutlineFrom([], flat)
  }

  lemma {:induction false} OutlineFromAppend(d: seq<DrawerSection>, a: seq<FlatRuleItem>, b: seq<FlatRuleItem>)
    ensures OutlineFrom(d, a + b) == OutlineFrom(OutlineFrom(d, a), b)
    decreases |b|
  {
    if b == [] {
      assert a + b == a;
    } else {
      assert (a + b)[..|a + b| - 1] == a + b[..|b| - 1];
      assert (a + b)[|a + b| - 1] == b[|b| - 1];
      OutlineFromAppend(d, a, b[..|b| - 1]);
    }
  }

  lemma {:induction false} OutlineFromRules(d: seq<DrawerSection>, items: seq<FlatRuleItem>)
    requires AllRules(items)
    ensures OutlineFrom(d, items) == d
    decreases |items|
  {
    if items != [] {
      OutlineFromRules(d, items[..|items| - 1]);
    }
  }

  /** A subsection block: a header row, then only rules; its drawer entry is
      read off the header. */
  ghost predicate SubsectionShaped(b: (DrawerSubsection, seq<FlatRuleItem>)) {
    && |b.1| >= 1
    && b.1[0].kind == SubsectionHeader
    && b.0 == DrawerSubsection(b.1[0].id, DisplayTitle(b.1[0].id, b.1[0].title))
    && AllRules(b.1[1..])
  }

  /** A section block adds exactly its own drawer entry to any outline. */
  ghost predicate SectionShaped(b: (DrawerSection, seq<FlatRuleItem>)) {
    |b.1| >= 1 && b.1[0].kind == SectionHeader && OutlineOf(b.1) == [b.0]
  }

  /** Rows that start with a section header never touch the outline read
      before them. */
  lemma {:induction false} OutlineFromShift(d: seq<DrawerSection>, rows: seq<FlatRuleItem>)
    requires |rows| >= 1 && rows[0].kind == SectionHeader
    ensures |OutlineOf(rows)| >= 1
    ensures OutlineFrom(d, rows) == d + OutlineOf(rows)
    decreases |rows|
  {
    var init := rows[..|rows| - 1];
    var x := rows[|rows| - 1];
    if init == [] {
      assert OutlineFrom(d, init) == d && OutlineFrom([], init) == [];
    } else {
      assert init[0] == rows[0];
      OutlineFromShift(d, init);
      AddToOutlineShift(d, OutlineOf(init), x);
    }
  }

  lemma AddToOutlineShift(d: seq<DrawerSection>, o: seq<DrawerSection>, x: FlatRuleItem)
    requires |o| >= 1
    ensures |AddToOutline(o, x)| >= 1
    ensures AddToOutline(d + o, x) == d + AddToOutline(o, x)
  {
    if x.kind == SubsectionHeader {
      assert (d + o)[..|d + o| - 1] == d + o[..|o| - 1];
      assert (d + o)[|d + o| - 1] == o[|o| - 1];
    }
  }

  lemma {:induction false} SubsectionsOutline(d: seq<DrawerSection>, blocks: seq<(DrawerSubsection, seq<FlatRuleItem>)>)
    requires d != []
    requires forall j :: 0 <= j < |blocks| ==> SubsectionShaped(blocks[j])
    ensures OutlineFrom(d, Flatten(blocks))
         == d[..|d| - 1] + [d[|d| - 1].(subsections := d[|d| - 1].subsections + Heads(blocks))]
    decreases |blocks|
  {
    var last := d[|d| - 1];
    if blocks == [] {
      assert last.subsections + Heads(blocks) == last.subsections;
      assert d[..|d| - 1] + [last] == d;
    } else {
      var init := blocks[..|blocks| - 1];
      var b := blocks[|blocks| - 1];
      SubsectionsOutline(d, init);
      var d1 := d[..|d| - 1] + [last.(subsections := last.subsections + Heads(init))];
      assert Flatten(blocks) == Flatten(init) + b.1;
      OutlineFromAppend(d, Flatten(init), b.1);
      SubsectionBlockOutline(d1, b);
      assert d1[..|d1| - 1] == d[..|d| - 1] && d1[|d1| - 1] == last.(subsections := last.subsections + Heads(init));
      assert Heads(blocks) == Heads(init) + [b.0];
      assert last.subsections + Heads(init) + [b.0] == last.subsections + Heads(blocks);
    }
  }

  /** One subsection block lists its entry under the last drawer section. */
  lemma SubsectionBlockOutline(d: seq<DrawerSection>, b: (DrawerSubsection, seq<FlatRuleItem>))
    requires d != [] && SubsectionShaped(b)
    ensures OutlineFrom(d, b.1) == d[..|d| - 1] + [d[|d| - 1].(subsections := d[|d| - 1].subsections + [b.0])]
  {
    var h, rules := b.1[0], b.1[1..];
    assert b.1 == [h] + rules;
    OutlineFromAppend(d, [h], rules);
    assert [h][..0] == [];
    assert OutlineFrom(d, [h]) == AddToOutline(d, h);
    OutlineFromRules(AddToOutline(d, h), rules);
  }

  lemma {:induction false} SectionsOutline(blocks: seq<(DrawerSection, seq<FlatRuleItem>)>)
    requires forall j :: 0 <= j < |blocks| ==> SectionShaped(blocks[j])
    ensures OutlineOf(Flatten(blocks)) == Heads(blocks)
    decreases |blocks|
  {
    if blocks != [] {
      var init := blocks[..|blocks| - 1];
      var b := blocks[|blocks| - 1];
      SectionsOutline(init);
      OutlineFromAppend([], Flatten(init), b.1);
      assert SectionShaped(b);
      OutlineFromShift(Heads(init), b.1);
    }
  }

  // ---------------------------------------------------------------------------
  // What one block holds
  // ---------------------------------------------------------------------------

  /** The rules of a subsection are one `Rule` row per key of its
      `subsubsections`, in key order, each indented by its dots plus one. */
  lemma SubsectionRulesFacts(subObj: seq<Member>, rules: seq<FlatRuleItem>)
    requires SubsectionRules(subObj) == Some(rules)
    ensures RowIds(rules) == ChildKeys(subObj, "subsubsections")
    ensures AllRules(rules) && AllIndented(rules)
  {
    match ObjectAt(subObj, "subsubsections")
    case None =>
    case Some(m) =>
      var results := RuleResults(m, SortedKeys(m));
      AllSomeValues(results, rules);
      forall i | 0 <= i < |rules|
        ensures rules[i].id == SortedKeys(m)[i] && rules[i].kind == Rule && IndentationOk(rules[i])
      {
        assert results[i] == RuleItem(m, SortedKeys(m)[i]);
      }
  }

  /** What a successful subsection block is made of. */
  lemma SubsectionBlockParts(subs: seq<Member>, key: string, b: (DrawerSubsection, seq<FlatRuleItem>))
    requires SubsectionBlock(subs, key) == Some(b)
    ensures ObjectAt(subs, key).Some?
    ensures GetString(ObjectAt(subs, key).value, "title").Some?
    ensures SubsectionRules(ObjectAt(subs, key).value).Some?
    ensures var subObj := ObjectAt(subs, key).value;
      var title := GetString(subObj, "title").value;
      b == (DrawerSubsection(key, DisplayTitle(key, title)),
            [FlatRuleItem(key, title, OptString(subObj, "content", ""), SubsectionHeader, 1)] + SubsectionRules(subObj).value)
  {
  }

  /** A subsection block is its header row (text = `content`, default "")
      followed by its rules in key order; its drawer entry is `key + " " + title`. */
  lemma SubsectionBlockFacts(subs: seq<Member>, key: string, b: (DrawerSubsection, seq<FlatRuleItem>))
    requires SubsectionBlock(subs, key) == Some(b)
    ensures ObjectAt(subs, key).Some? && |b.1| >= 1
    ensures b.1[0].kind == SubsectionHeader && b.1[0].id == key && b.0.id == key
    ensures b.1[0].text == OptString(ObjectAt(subs, key).value, "content", "")
    ensures RowIds(b.1[1..]) == ChildKeys(ObjectAt(subs, key).value, "subsubsections")
    ensures SubsectionShaped(b) && AllIndented(b.1)
  {
    SubsectionBlockParts(subs, key, b);
    var subObj := ObjectAt(subs, key).value;
    var rules := SubsectionRules(subObj).value;
    SubsectionRulesFacts(subObj, rules);
    assert b.1[1..] == rules;
    IndentedCons(b.1[0], rules);
  }

  /** What a successful section block is made of. */
  lemma SectionBlockParts(secs: seq<Member>, key: string, b: (DrawerSection, seq<FlatRuleItem>))
    requires SectionBlock(secs, key) == Some(b)
    ensures ObjectAt(secs, key).Some?
    ensures GetString(ObjectAt(secs, key).value, "title").Some?
    ensures SectionSubsections(ObjectAt(secs, key).value).Some?
    ensures var secObj := ObjectAt(secs, key).value;
      var title := GetString(secObj, "title").value;
      var subs := SectionSubsections(secObj).value;
      b == (DrawerSection(key, DisplayTitle(key, title), subs.0),
            [FlatRuleItem(key, title, OptString(secObj, "intro", ""), SectionHeader, 0)] + subs.1)
  {
  }

  /** The subsections of a section: their drawer entries list the keys of
      `subsections` in key order, their rows are well indented, and they add
      their entries to the drawer section they follow. */
  lemma SectionSubsectionsFacts(secObj: seq<Member>, subs: (seq<DrawerSubsection>, seq<FlatRuleItem>), open: DrawerSection)
    requires SectionSubsections(secObj) == Some(subs)
    ensures SubsectionIds(subs.0) == ChildKeys(secObj, "subsections")
    ensures AllIndented(subs.1)
    ensures OutlineFrom([open], subs.1) == [open.(subsections := open.subsections + subs.0)]
  {
    match ObjectAt(secObj, "subsections")
    case None =>
      assert open.subsections + subs.0 == open.subsections;
    case Some(m) =>
      var results := SubsectionResults(m, SortedKeys(m));
      var blocks := AllSome(results).value;
      AllSomeValues(results, blocks);
      forall j | 0 <= j < |blocks|
        ensures SubsectionShaped(blocks[j]) && AllIndented(blocks[j].1) && blocks[j].0.id == SortedKeys(m)[j]
      {
        assert results[j] == SubsectionBlock(m, SortedKeys(m)[j]);
        SubsectionBlockFacts(m, SortedKeys(m)[j], blocks[j]);
      }
      FlattenIndented(blocks);
      SubsectionsOutline([open], blocks);
  }

  /** A section block is its header row (text = `intro`, default "") followed
      by its subsection blocks; its drawer entry is `key + " " + title` and
      lists the subsection keys in key order. */
  lemma SectionBlockFacts(secs: seq<Member>, key: string, b: (DrawerSection, seq<FlatRuleItem>))
    requires SectionBlock(secs, key) == Some(b)
    ensures ObjectAt(secs, key).Some?
    ensures var secObj := ObjectAt(secs, key).value;
      && |b.1| >= 1
      && b.1[0].kind == SectionHeader && b.1[0].id == key
      && b.1[0].text == OptString(secObj, "intro", "")
      && b.0.id == key
      && SubsectionIds(b.0.subsections) == ChildKeys(secObj, "subsections")
    ensures SectionShaped(b) && AllIndented(b.1)
  {
    SectionBlockParts(secs, key, b);
    var secObj := ObjectAt(secs, key).value;
    var title := GetString(secObj, "title").value;
    var subs := SectionSubsections(secObj).value;
    SectionRowsShape(secObj, key, title, subs);
  }

  /** The shape of a section block, from the parts it is built of. */
  lemma SectionRowsShape(secObj: seq<Member>, key: string, title: string, subs: (seq<DrawerSubsection>, seq<FlatRuleItem>))
    requires SectionSubsections(secObj) == Some(subs)
    ensures var header := FlatRuleItem(key, title, OptString(secObj, "intro", ""), SectionHeader, 0);
      var b := (DrawerSection(key, DisplayTitle(key, title), subs.0), [header] + subs.1);
      SectionShaped(b) && AllIndented(b.1) && SubsectionIds(b.0.subsections) == ChildKeys(secObj, "subsections")
  {
    var header := FlatRuleItem(key, title, OptString(secObj, "intro", ""), SectionHeader, 0);
    var open := DrawerSection(key, DisplayTitle(key, title), []);
    SectionSubsectionsFacts(secObj, subs, open);
    IndentedCons(header, subs.1);
    OutlineFromAppend([], [header], subs.1);
    assert [header][..0] == [];
    assert OutlineFrom([], [header]) == [open];
    assert open.subsections + subs.0 == subs.0;
  }

  // ---------------------------------------------------------------------------
  // The loaded document
  // ---------------------------------------------------------------------------

  /** The drawer is exactly the outline read off the flat list: one entry per
      section header, in flat-list order, each listing the subsection headers
      that follow it; rules never reach the drawer. */
  lemma DrawerIsOutlineOfFlatList(root: Json)
    ensures LoadRules(root).0 == OutlineOf(LoadRules(root).1)
  {
    if root.Obj? && Has(root.members, "sections") && ObjectAt(root.members, "sections").Some? {
      var secs := ObjectAt(root.members, "sections").value;
      var results := SectionResults(secs, SortedKeys(secs));
      if AllSome(results).Some? {
        var blocks := AllSome(results).value;
        AllSomeValues(results, blocks);
        forall j | 0 <= j < |blocks| ensures SectionShaped(blocks[j]) {
          assert results[j] == SectionBlock(secs, SortedKeys(secs)[j]);
          SectionBlockFacts(secs, SortedKeys(secs)[j], blocks[j]);
        }
        SectionsOutline(blocks);
      }
    }
  }

  /** Sections sit at indentation 0, subsections at 1, a rule at the number of
      dots in its key plus one. */
  lemma FlatListIndentation(root: Json)
    ensures AllIndented(LoadRules(root).1)
  {
    if root.Obj? && Has(root.members, "sections") && ObjectAt(root.members, "sections").Some? {
      var secs := ObjectAt(root.members, "sections").value;
      var results := SectionResults(secs, SortedKeys(secs));
      if AllSome(results).Some? {
        var blocks := AllSome(results).value;
        AllSomeValues(results, blocks);
        forall j | 0 <= j < |blocks| ensures AllIndented(blocks[j].1) {
          assert results[j] == SectionBlock(secs, SortedKeys(secs)[j]);
          SectionBlockFacts(secs, SortedKeys(secs)[j], blocks[j]);
        }
        FlattenIndented(blocks);
      }
    }
  }

  /** A loaded document has one drawer section per section key, in ascending
      key order, titled `key + " " + title` and listing its subsection keys
      in ascending order. */
  lemma DrawerFollowsKeyOrder(root: Json, secs: seq<Member>)
    requires root.Obj? && ObjectAt(root.members, "sections") == Some(secs)
    requires Loaded(root).Some?
    ensures |LoadRules(root).0| == |SortedKeys(secs)|
    ensures forall i :: 0 <= i < |SortedKeys(secs)| ==>
      var section := LoadRules(root).0[i];
      && section.id == SortedKeys(secs)[i]
      && ObjectAt(secs, section.id).Some?
      && GetString(ObjectAt(secs, section.id).value, "title").Some?
      && section.title == DisplayTitle(section.id, GetString(ObjectAt(secs, section.id).value, "title").value)
      && SubsectionIds(section.subsections) == ChildKeys(ObjectAt(secs, section.id).value, "subsections")
  {
    var results := SectionResults(secs, SortedKeys(secs));
    var blocks := AllSome(results).value;
    AllSomeValues(results, blocks);
    forall i | 0 <= i < |SortedKeys(secs)|
      ensures var section := blocks[i].0;
        && section.id == SortedKeys(secs)[i]
        && ObjectAt(secs, section.id).Some?
        && GetString(ObjectAt(secs, section.id).value, "title").Some?
        && section.title == DisplayTitle(section.id, GetString(ObjectAt(secs, section.id).value, "title").value)
        && SubsectionIds(section.subsections) == ChildKeys(ObjectAt(secs, section.id).value, "subsections")
    {
      assert results[i] == SectionBlock(secs, SortedKeys(secs)[i]);
      SectionBlockFacts(secs, SortedKeys(secs)[i], blocks[i]);
      SectionBlockParts(secs, SortedKeys(secs)[i], blocks[i]);
    }
  }

  // ---------------------------------------------------------------------------
  // Every drawer entry points at a header row of the flat list
  // ---------------------------------------------------------------------------

  predicate HasHeader(flat: seq<FlatRuleItem>, kind: RuleType, id: string) {
    exists j :: 0 <= j < |flat| && flat[j].kind == kind && flat[j].id == id
  }

  /** Every entry of drawer `d`, section or subsection, names a header row of
      `flat` of the matching type. */
  ghost predicate OutlineBacked(flat: seq<FlatRuleItem>, d: seq<DrawerSection>) {
    forall i :: 0 <= i < |d| ==> HasHeader(flat, SectionHeader, d[i].id) && SubsectionsBacked(flat, d[i].subsections)
  }

  ghost predicate SubsectionsBacked(flat: seq<FlatRuleItem>, subs: seq<DrawerSubsection>) {
    forall s :: 0 <= s < |subs| ==> HasHeader(flat, SubsectionHeader, subs[s].id)
  }

  lemma BackedGrows(flat: seq<FlatRuleItem>, x: FlatRuleItem, d: seq<DrawerSection>)
    requires OutlineBacked(flat, d)
    ensures OutlineBacked(flat + [x], d)
  {
    forall kind, id | HasHeader(flat, kind, id) ensures HasHeader(flat + [x], kind, id) {
      var j :| 0 <= j < |flat| && flat[j].kind == kind && flat[j].id == id;
      assert (flat + [x])[j] == flat[j];
    }
  }

  lemma AddToOutlineBacked(flat: seq<FlatRuleItem>, x: FlatRuleItem, d: seq<DrawerSection>)
    requires OutlineBacked(flat, d)
    ensures OutlineBacked(flat + [x], AddToOutline(d, x))
  {
    BackedGrows(flat, x, d);
    var flat' := flat + [x];
    assert flat'[|flat|] == x;
    if x.kind == SubsectionHeader && d != [] {
      var last := d[|d| - 1];
      var entry := DrawerSubsection(x.id, DisplayTitle(x.id, x.title));
      assert SubsectionsBacked(flat', last.subsections);
      assert SubsectionsBacked(flat', last.subsections + [entry]);
    }
  }

  /** The outline of a flat list only lists its own header rows. */
  lemma {:induction false} OutlineEntriesAreHeaders(flat: seq<FlatRuleItem>)
    ensures OutlineBacked(flat, OutlineOf(flat))
    decreases |flat|
  {
    if flat != [] {
      var init := flat[..|flat| - 1];
      OutlineEntriesAreHeaders(init);
      AddToOutlineBacked(init, flat[|flat| - 1], OutlineOf(init));
      assert init + [flat[|flat| - 1]] == flat;
    }
  }

  /** Every drawer entry of the loaded document names a header row of its flat
      list with the matching type, so a drawer click always finds its row. */
  lemma DrawerEntriesAreHeaderRows(root: Json)
    ensures OutlineBacked(LoadRules(root).1, LoadRules(root).0)
  {
    DrawerIsOutlineOfFlatList(root);
    OutlineEntriesAreHeaders(LoadRules(root).1);
  }
}
