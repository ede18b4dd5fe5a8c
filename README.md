# Riftbound Judge Assistant — a verified model of its core logic

Riftbound Judge Assistant is an Android viewer for the Riftbound card game's rulebooks and penalty guide, plus two Python scripts that turn the rulebook text into the nested JSON the viewer reads. This project models, in Dafny, the logic of both halves, leaving out the Compose UI.

**The viewer** (`MainActivity.kt`, `PenaltiesScreen.kt`)
- `rule_document.dfy` (module `RuleDocument`) is `loadRulesFromAssets`. It walks `sections → subsections → subsubsections` of the already-parsed document, in plain `sorted()` key order. It builds the flat list of rows the screen shows and the two-level drawer outline. Any exception empties both.
- `rule_search.dfy` (`RuleSearch`) is the case-insensitive search filter.
- `rule_links.dfy` (`RuleLinks`) is `RuleTextWithLinks`. It removes `**` and cuts the text into plain pieces and rule-number links.
- `navigation.dfy` (`Navigation`) is the rulebook screen's state: query, search mode, pending scroll target, highlight and expanded drawer sections. The class `RuleBookScreen` holds them, and its methods are the handlers, including the scroll effect's index decisions.
- `penalties.dfy` (`Penalties`) covers the penalty guide:
  - `loadPenaltiesFromAssets`, which keeps the categories read before an exception;
  - `flatItems` and `scrollToId`;
  - `getPenaltyColor`.
- `version_order.dfy` (`VersionOrder`) is `compareVersionStrings`, the dot-segment numeric comparator.
- `json.dfy` (`Json`) is the parsed JSON tree with the `org.json` accessors the viewer calls.

**The converter scripts** (`extract_from_TXT.py`, `extract_from_PDF.py`)
- `rulebook_text.dfy` (`RulebookText`) holds what the two scripts share:
  - Python's whitespace, `strip` and `splitlines`;
  - the blank-collapsing substitution and `normalize_lines`;
  - hand-written scanners for the id-line, bullet, "Example" and "Last Updated" patterns;
  - the level tests.
- `rulebook_doc.dfy` (`RulebookDoc`) is the nested output document and the three numbered-line steps the scripts share: open a section, open a subsection, file a rule.
- `extract_txt.dfy` (`ExtractTxt`) is `parse_lines` and `main`'s flag clean-up. The parse never raises.
- `extract_pdf.dfy` (`ExtractPdf`) is `parse`, which can raise (see Findings).
- `py_dict.dfy` (`PyDict`) is Python's insertion-ordered `dict`: `get`, `d[k] = v`, `setdefault`, and in-place value edits.

**Shared helpers**
- `strings.dfy`, `sorting.dfy`, `sequences.dfy` and `wrappers.dfy` hold the string helpers, the stable sort, subsequences and `Option`.

**How errors and loops are modelled**
- A thrown exception (`JSONException`, `KeyError`, `AttributeError`) is a `None` result.
- Each loop of the source is a `method` with a loop. It is proved equal to a specification function, and the source's promises are proved as lemmas about that function.

**Two behaviours of the code worth knowing**
- The rulebook loader sorts keys with plain string order (`sorted()`), so `"9"` sorts after `"10"` there. Only the penalty guide uses `compareVersionStrings`.
- `initiateScroll` sets `highlightedRuleId` before the id is looked up, so a dangling link still sets the highlight. `Navigation.RuleBookScreen.InitiateScroll` and `Navigation.NavigateTo` state this.

## Model

| member | source | states |
|---|---|---|
| RuleDocument.LoadRulesFromAssets | RiftJudgeCompanion/app/src/main/java/com/example/riftcompanion/MainActivity.kt:786-859 | The nested loops over sections, subsections and rules return exactly `LoadRules(root)`: the drawer and flat list of a document that loads, two empty lists otherwise |
| RuleDocument.LoadRules | RiftJudgeCompanion/app/src/main/java/com/example/riftcompanion/MainActivity.kt:792-793 | A root that is not an object, or has no `sections`, yields two empty lists |
| RuleDocument.LoadSubsections | RiftJudgeCompanion/app/src/main/java/com/example/riftcompanion/MainActivity.kt:814-847 | The loop over one section's subsections gives their drawer entries and rows, or the exception one of them throws |
| RuleDocument.LoadSubsectionRules | RiftJudgeCompanion/app/src/main/java/com/example/riftcompanion/MainActivity.kt:831-845 | The loop over one subsection's rules gives one row per rule key in sorted order, or the exception one rule throws |
| RuleDocument.LoadRule | RiftJudgeCompanion/app/src/main/java/com/example/riftcompanion/MainActivity.kt:835-843 | One rule's row: the key, the optional title (default ""), the required text, type RULE and indentation dots + 1; an exception when the object or its `text` is missing |
| RuleDocument.SortedKeysOrdered | RiftJudgeCompanion/app/src/main/java/com/example/riftcompanion/MainActivity.kt:800 | Every level is visited in ascending plain-string order, and the visited keys are exactly the object's keys, each as often as it occurs |
| RuleDocument.SortedKeyIndex | RiftJudgeCompanion/app/src/main/java/com/example/riftcompanion/MainActivity.kt:800 | Every key of an object is visited |
| RuleDocument.LoadFailsIffSectionFails | RiftJudgeCompanion/app/src/main/java/com/example/riftcompanion/MainActivity.kt:802-857 | With a `sections` object, the document fails to load exactly when one section throws |
| RuleDocument.FailingSectionEmptiesDocument | RiftJudgeCompanion/app/src/main/java/com/example/riftcompanion/MainActivity.kt:855-857 | One section that throws empties both the drawer and the flat list |
| RuleDocument.SectionWithoutTitleEmptiesDocument | RiftJudgeCompanion/app/src/main/java/com/example/riftcompanion/MainActivity.kt:804 | A section without `title` empties the whole document |
| RuleDocument.FailingSubsectionEmptiesDocument | RiftJudgeCompanion/app/src/main/java/com/example/riftcompanion/MainActivity.kt:819-820 | A subsection that throws, in any section, empties the whole document |
| RuleDocument.RuleWithoutTextEmptiesDocument | RiftJudgeCompanion/app/src/main/java/com/example/riftcompanion/MainActivity.kt:837 | A single rule without `text`, however deep, empties the whole document |
| RuleDocument.RuleFailsSubsection | RiftJudgeCompanion/app/src/main/java/com/example/riftcompanion/MainActivity.kt:835-837 | A rule without `text` makes the subsection it sits in throw |
| RuleDocument.SubsectionRulesFacts | RiftJudgeCompanion/app/src/main/java/com/example/riftcompanion/MainActivity.kt:831-845 | A subsection's rules are all of type RULE, correctly indented, with ids that are the sorted keys of `subsubsections` |
| RuleDocument.SubsectionBlockFacts | RiftJudgeCompanion/app/src/main/java/com/example/riftcompanion/MainActivity.kt:818-845 | A subsection's rows start with its header, whose text is `content` (default ""), followed by its rules in key order; its drawer entry has the same id |
| RuleDocument.SectionSubsectionsFacts | RiftJudgeCompanion/app/src/main/java/com/example/riftcompanion/MainActivity.kt:814-847 | A section's subsection entries list the sorted keys of `subsections`; their rows are well indented and add exactly those entries to the drawer section before them |
| RuleDocument.SectionBlockFacts | RiftJudgeCompanion/app/src/main/java/com/example/riftcompanion/MainActivity.kt:802-850 | A section's rows start with its header, whose text is `intro` (default ""), followed by its subsection blocks; its drawer entry lists its subsection keys in order |
| RuleDocument.DrawerIsOutlineOfFlatList | RiftJudgeCompanion/app/src/main/java/com/example/riftcompanion/MainActivity.kt:809-850 | The drawer is exactly the outline read off the flat list: one entry per section header, in list order, each listing the subsection headers after it; rules never reach the drawer |
| RuleDocument.FlatListIndentation | RiftJudgeCompanion/app/src/main/java/com/example/riftcompanion/MainActivity.kt:811-844 | Section headers sit at indentation 0, subsection headers at 1, and a rule at the number of dots in its key plus 1 |
| RuleDocument.DrawerFollowsKeyOrder | RiftJudgeCompanion/app/src/main/java/com/example/riftcompanion/MainActivity.kt:800-850 | A loaded document has one drawer section per section key, in ascending key order, titled `key + " " + title` and listing its subsection keys in ascending order |
| RuleDocument.OutlineEntriesAreHeaders | RiftJudgeCompanion/app/src/main/java/com/example/riftcompanion/MainActivity.kt:825-850 | Any outline read off a flat list names only header rows of that list, of the matching type |
| RuleDocument.DrawerEntriesAreHeaderRows | RiftJudgeCompanion/app/src/main/java/com/example/riftcompanion/MainActivity.kt:825-850 | Every drawer id of the loaded document names a header row of its flat list with the matching type |
| RuleSearch.Keep | RiftJudgeCompanion/app/src/main/java/com/example/riftcompanion/MainActivity.kt:376-380 | The filter keeps every matching row as often as it occurs, drops every other row, and keeps the original order |
| RuleSearch.Filter | RiftJudgeCompanion/app/src/main/java/com/example/riftcompanion/MainActivity.kt:375-381 | A blank query shows the list unchanged; otherwise the shown rows are an order-preserving subsequence holding exactly the rows whose text, title or id contains the query, ignoring case |
| RuleSearch.ShownIff | RiftJudgeCompanion/app/src/main/java/com/example/riftcompanion/MainActivity.kt:375-381 | A row is shown exactly when it is in the list and the query is blank or finds it |
| RuleLinks.StripStars | RiftJudgeCompanion/app/src/main/java/com/example/riftcompanion/MainActivity.kt:743 | No `**` is left, and only stars are removed: every other character survives in order |
| RuleLinks.StripStarsSplits | RiftJudgeCompanion/app/src/main/java/com/example/riftcompanion/MainActivity.kt:743 | After a character other than `*`, the scan starts afresh: both sides are stripped on their own |
| RuleLinks.StripStarsRunPrefix | RiftJudgeCompanion/app/src/main/java/com/example/riftcompanion/MainActivity.kt:743 | A run of `n` stars at the start, before a non-star, keeps `n % 2` stars |
| RuleLinks.StripStarsRun | RiftJudgeCompanion/app/src/main/java/com/example/riftcompanion/MainActivity.kt:743 | Any maximal run of `n` stars is cut to `n % 2` stars: pairs go, and an odd star stays |
| RuleLinks.LoneStarKept | RiftJudgeCompanion/app/src/main/java/com/example/riftcompanion/MainActivity.kt:743 | `"a*b**c"` is shown as `"a*bc"`: a lone star is not removed |
| RuleLinks.StripStarsKeepsPlainText | RiftJudgeCompanion/app/src/main/java/com/example/riftcompanion/MainActivity.kt:743 | Text without `**` is shown unchanged |
| RuleLinks.LinkEndShape | RiftJudgeCompanion/app/src/main/java/com/example/riftcompanion/MainActivity.kt:739 | The groups after the three digits are `.`+word runs, end on a word boundary and no further group follows |
| RuleLinks.FindLinkIsLeftmost | RiftJudgeCompanion/app/src/main/java/com/example/riftcompanion/MainActivity.kt:745 | The scan finds a match of the pattern, no match starts before it, and when it finds nothing no match is left |
| RuleLinks.LinkIsRuleRef | RiftJudgeCompanion/app/src/main/java/com/example/riftcompanion/MainActivity.kt:739 | A link is three digits then dot groups, word-bounded on both sides |
| RuleLinks.SplitLinks | RiftJudgeCompanion/app/src/main/java/com/example/riftcompanion/MainActivity.kt:738-766 | The loop over matches appending plain text and links builds exactly `Pieces` of the text with `**` removed |
| RuleLinks.PiecesRebuildText | RiftJudgeCompanion/app/src/main/java/com/example/riftcompanion/MainActivity.kt:742-765 | Concatenating the plain and link pieces gives back the text the pieces were cut from |
| RuleLinks.PiecesAlternate | RiftJudgeCompanion/app/src/main/java/com/example/riftcompanion/MainActivity.kt:745-765 | Plain and link pieces alternate, starting and ending with plain text |
| RuleLinks.PiecesAreTheMatches | RiftJudgeCompanion/app/src/main/java/com/example/riftcompanion/MainActivity.kt:745-763 | Every link piece is a match of the pattern exactly where it stands and no match starts inside a plain piece: the matches are leftmost-first and non-overlapping |
| Navigation.CoerceIn | RiftJudgeCompanion/app/src/main/java/com/example/riftcompanion/MainActivity.kt:400 | The result lies in `[lo, hi]`: a value already inside is unchanged, a value below gives `lo` and a value above gives `hi` |
| Navigation.SnapIndex | RiftJudgeCompanion/app/src/main/java/com/example/riftcompanion/MainActivity.kt:396-400 | The jump target is a valid row within 10 of the target. It is exactly 10 rows before the target (or row 0) when the target is below the first visible row, and exactly 10 rows after it (or the last row) otherwise. Coming from more than 10 rows away, it lies between the first visible row and the target |
| Navigation.Toggled | RiftJudgeCompanion/app/src/main/java/com/example/riftcompanion/MainActivity.kt:453-454 | A click flips the expansion of that section and leaves every other entry as it was |
| Navigation.ToggleTwiceRestores | RiftJudgeCompanion/app/src/main/java/com/example/riftcompanion/MainActivity.kt:453-454 | The map holds only `true`, and two clicks on the same section restore it |
| Navigation.RuleBookScreen.constructor | RiftJudgeCompanion/app/src/main/java/com/example/riftcompanion/MainActivity.kt:359-382 | The screen starts with the loaded rows, an empty query, search off, no target, no highlight and nothing expanded |
| Navigation.RuleBookScreen.InitiateScroll | RiftJudgeCompanion/app/src/main/java/com/example/riftcompanion/MainActivity.kt:413-419 | Leaves search, clears the query so the full list shows, and sets target and highlight to the id whether or not a row has it |
| Navigation.RuleBookScreen.RunScrollEffect | RiftJudgeCompanion/app/src/main/java/com/example/riftcompanion/MainActivity.kt:386-410 | No scroll for an unknown id; otherwise it animates to the first row with the id, jumping first to `SnapIndex` exactly when that row is more than 10 rows from the first visible one; the target is cleared in every case and nothing else changes |
| Navigation.RuleBookScreen.ToggleSection | RiftJudgeCompanion/app/src/main/java/com/example/riftcompanion/MainActivity.kt:453-454 | The drawer map becomes `Toggled` of the old one; nothing else changes |
| Navigation.RuleBookScreen.SetQuery | RiftJudgeCompanion/app/src/main/java/com/example/riftcompanion/MainActivity.kt:496 | The query is the typed text and the shown rows are the filter of the full list by it |
| Navigation.RuleBookScreen.OpenSearch | RiftJudgeCompanion/app/src/main/java/com/example/riftcompanion/MainActivity.kt:522 | Search becomes active and nothing else changes |
| Navigation.RuleBookScreen.CloseSearch | RiftJudgeCompanion/app/src/main/java/com/example/riftcompanion/MainActivity.kt:503-506 | Search ends, the query is cleared and the full list shows |
| Navigation.NavigateTo | RiftJudgeCompanion/app/src/main/java/com/example/riftcompanion/MainActivity.kt:413-425 | Navigating to an id (drawer, link or search result) shows the full list and scrolls to the first row of the full list with that id, or not at all when none has it; the highlight is set either way |
| Penalties.NullableString | RiftJudgeCompanion/app/src/main/java/com/example/riftcompanion/PenaltiesScreen.kt:314-315 | `penalty`/`description` are null exactly when the field is missing or JSON null, and otherwise the field's string |
| Penalties.LoadItems | RiftJudgeCompanion/app/src/main/java/com/example/riftcompanion/PenaltiesScreen.kt:317-327 | The `items` loop gives `ItemsOf`: one item per array element, or the exception a non-object element throws |
| Penalties.LoadSection | RiftJudgeCompanion/app/src/main/java/com/example/riftcompanion/PenaltiesScreen.kt:312-329 | One pass of the sections loop gives the section read under that key, or its exception |
| Penalties.LoadSections | RiftJudgeCompanion/app/src/main/java/com/example/riftcompanion/PenaltiesScreen.kt:304-331 | The sections loop gives the sections of the sorted keys, skipping `.1` keys, or the first exception |
| Penalties.LoadCategory | RiftJudgeCompanion/app/src/main/java/com/example/riftcompanion/PenaltiesScreen.kt:298-333 | One pass of the categories loop gives the category read under that key, or its exception |
| Penalties.LoadPenaltiesFromAssets | RiftJudgeCompanion/app/src/main/java/com/example/riftcompanion/PenaltiesScreen.kt:283-339 | The categories loop returns `LoadPenalties(root)`: the categories completed before the first exception |
| Penalties.SectionsUpToFails | RiftJudgeCompanion/app/src/main/java/com/example/riftcompanion/PenaltiesScreen.kt:308-331 | A section that throws fails the whole sections loop |
| Penalties.KeptCount | RiftJudgeCompanion/app/src/main/java/com/example/riftcompanion/PenaltiesScreen.kt:310 | A key ending in `.1` is skipped; every other key is kept as often as it occurs |
| Penalties.KeptSorted | RiftJudgeCompanion/app/src/main/java/com/example/riftcompanion/PenaltiesScreen.kt:305-310 | Skipping keys keeps the others in comparator order |
| Penalties.SectionsUpToKeys | RiftJudgeCompanion/app/src/main/java/com/example/riftcompanion/PenaltiesScreen.kt:308-329 | A sections loop that succeeds holds one section per kept key, in order, each read from its own key |
| Penalties.SectionsInOrder | RiftJudgeCompanion/app/src/main/java/com/example/riftcompanion/PenaltiesScreen.kt:305-307 | Sections come in `compareVersionStrings` order of their ids |
| Penalties.SectionsCounted | RiftJudgeCompanion/app/src/main/java/com/example/riftcompanion/PenaltiesScreen.kt:305-310 | There is one section per key not ending in `.1`, as often as the key occurs |
| Penalties.CategorySections | RiftJudgeCompanion/app/src/main/java/com/example/riftcompanion/PenaltiesScreen.kt:300-331 | A loaded category's sections: none without a `sections` object; otherwise one per key not ending in `.1`, in comparator order, each read from its own key |
| Penalties.LoadedCategories | RiftJudgeCompanion/app/src/main/java/com/example/riftcompanion/PenaltiesScreen.kt:285-338 | The result is the categories before the first failing key, in comparator order of their keys, each read from its key; with no failure, one per key |
| Penalties.ItemsFollowArray | RiftJudgeCompanion/app/src/main/java/com/example/riftcompanion/PenaltiesScreen.kt:317-327 | Items follow the `items` array one for one, with "" for a missing id or text; no array, no items |
| Penalties.FlattenPenalties | RiftJudgeCompanion/app/src/main/java/com/example/riftcompanion/PenaltiesScreen.kt:72-81 | The nested `forEach` builds exactly `DisplayItems`: each category's header row followed by its section rows |
| Penalties.DisplayLength | RiftJudgeCompanion/app/src/main/java/com/example/riftcompanion/PenaltiesScreen.kt:72-81 | The display list holds one row per category plus one per section |
| Penalties.DisplayPrefix | RiftJudgeCompanion/app/src/main/java/com/example/riftcompanion/PenaltiesScreen.kt:74-79 | The rows of the first categories are a prefix of the rows of all of them |
| Penalties.DisplayLayout | RiftJudgeCompanion/app/src/main/java/com/example/riftcompanion/PenaltiesScreen.kt:74-79 | Category `k`'s header row comes right before its sections' rows, in section order |
| Penalties.DisplayIds | RiftJudgeCompanion/app/src/main/java/com/example/riftcompanion/PenaltiesScreen.kt:52-58 | Each row's id is its category's or its section's id |
| Penalties.ScrollTarget | RiftJudgeCompanion/app/src/main/java/com/example/riftcompanion/PenaltiesScreen.kt:86-95 | `scrollToId` targets the first row with the id, and does nothing when no row has it |
| Penalties.PenaltyColorOf | RiftJudgeCompanion/app/src/main/java/com/example/riftcompanion/PenaltiesScreen.kt:272-281 | First match wins, ignoring case: "No Penalty" is green, else "Warning" amber, else any of the three losses red, else grey |
| Penalties.PenaltyLine | RiftJudgeCompanion/app/src/main/java/com/example/riftcompanion/PenaltiesScreen.kt:239-240 | The penalty line shows only for a present, non-blank penalty, in the colour of its class |
| VersionOrder.ParseInt | RiftJudgeCompanion/app/src/main/java/com/example/riftcompanion/PenaltiesScreen.kt:342 | `toIntOrNull` yields only 32-bit values, and only for a non-empty string |
| VersionOrder.ParseIntDecimal | RiftJudgeCompanion/app/src/main/java/com/example/riftcompanion/PenaltiesScreen.kt:342 | Every 32-bit value written in decimal reads back as itself |
| VersionOrder.Segments | RiftJudgeCompanion/app/src/main/java/com/example/riftcompanion/PenaltiesScreen.kt:342-343 | A key has one segment per `.`-separated piece |
| VersionOrder.CompareFrom | RiftJudgeCompanion/app/src/main/java/com/example/riftcompanion/PenaltiesScreen.kt:345-352 | The comparison yields -1, 0 or 1 |
| VersionOrder.CompareVersionStrings | RiftJudgeCompanion/app/src/main/java/com/example/riftcompanion/PenaltiesScreen.kt:341-353 | The indexed loop with its early return computes `Compare` |
| VersionOrder.CompareZeroIff | RiftJudgeCompanion/app/src/main/java/com/example/riftcompanion/PenaltiesScreen.kt:344-353 | Two keys compare equal exactly when their segments agree, padding the shorter with zeros |
| VersionOrder.CompareFromAntisymmetric | RiftJudgeCompanion/app/src/main/java/com/example/riftcompanion/PenaltiesScreen.kt:348-350 | Swapping the keys negates the result |
| VersionOrder.CompareFromReflexive | RiftJudgeCompanion/app/src/main/java/com/example/riftcompanion/PenaltiesScreen.kt:341-353 | A key compares equal to itself |
| VersionOrder.CompareFromTransitive | RiftJudgeCompanion/app/src/main/java/com/example/riftcompanion/PenaltiesScreen.kt:341-353 | Not after, then not after, is not after |
| VersionOrder.VersionLeIsTotalPreorder | RiftJudgeCompanion/app/src/main/java/com/example/riftcompanion/PenaltiesScreen.kt:293-295 | The comparator is total and transitive, so `sortedWith` by it is well defined |
| VersionOrder.CompareIsConsistent | RiftJudgeCompanion/app/src/main/java/com/example/riftcompanion/PenaltiesScreen.kt:341-353 | `cmp(a, a) == 0` and `cmp(a, b) == -cmp(b, a)` |
| VersionOrder.NineBeforeTen | RiftJudgeCompanion/app/src/main/java/com/example/riftcompanion/PenaltiesScreen.kt:341-353 | "9" sorts before "10" |
| VersionOrder.SecondSegmentByNumber | RiftJudgeCompanion/app/src/main/java/com/example/riftcompanion/PenaltiesScreen.kt:341-353 | "100.2" sorts before "100.10" |
| VersionOrder.MissingSegmentIsZero | RiftJudgeCompanion/app/src/main/java/com/example/riftcompanion/PenaltiesScreen.kt:346-347 | "100" and "100.0" compare equal |
| Sorting.Insert | RiftJudgeCompanion/app/src/main/java/com/example/riftcompanion/MainActivity.kt:800 | Insertion adds exactly one element |
| Sorting.InsertionSort | RiftJudgeCompanion/app/src/main/java/com/example/riftcompanion/MainActivity.kt:800 | The sort is a permutation of its input |
| Sorting.InsertKeepsSorted | RiftJudgeCompanion/app/src/main/java/com/example/riftcompanion/MainActivity.kt:800 | Inserting into a sorted sequence keeps it sorted |
| Sorting.InsertionSortSorted | RiftJudgeCompanion/app/src/main/java/com/example/riftcompanion/MainActivity.kt:800 | The sort orders its result by any total preorder |
| Sorting.InsertionSortSameElements | RiftJudgeCompanion/app/src/main/java/com/example/riftcompanion/MainActivity.kt:800 | A key is in the sorted keys exactly when it is among the input keys |
| Strings.IndexOfFirst | RiftJudgeCompanion/app/src/main/java/com/example/riftcompanion/MainActivity.kt:391 | `indexOfFirst`: -1 exactly when the id is absent, otherwise the first position holding it |
| Strings.SplitOn | RiftJudgeCompanion/app/src/main/java/com/example/riftcompanion/PenaltiesScreen.kt:342 | `split` gives at least one piece, none holding the separator |
| Strings.JoinSplitOn | RiftJudgeCompanion/app/src/main/java/com/example/riftcompanion/PenaltiesScreen.kt:342 | Joining the pieces of a split gives back the string |
| Strings.SplitOnJoin | RiftJudgeCompanion/app/src/main/java/com/example/riftcompanion/PenaltiesScreen.kt:342 | Splitting a join of separator-free pieces gives back the pieces |
| Strings.FirstPieceIsPrefix | CoreRulesToJson/extract_from_TXT.py:36 | `num.split('.')[0]` is the prefix before the first dot, or the whole string when there is none |
| Strings.LexTrichotomy | RiftJudgeCompanion/app/src/main/java/com/example/riftcompanion/MainActivity.kt:800 | Exactly one of `a < b`, `a == b`, `b < a` holds in string order |
| Strings.LexTransitive | RiftJudgeCompanion/app/src/main/java/com/example/riftcompanion/MainActivity.kt:800 | String order is transitive |
| Strings.LexLessEqIsTotalOrder | RiftJudgeCompanion/app/src/main/java/com/example/riftcompanion/MainActivity.kt:800 | `compareTo <= 0` is a total order, so `sorted()` is well defined |
| Json.Keys | RiftJudgeCompanion/app/src/main/java/com/example/riftcompanion/MainActivity.kt:800 | `keys()` lists each member's name, in order |
| Json.Opt | RiftJudgeCompanion/app/src/main/java/com/example/riftcompanion/MainActivity.kt:814 | A lookup finds nothing exactly when the name is absent |
| Json.OptFindsMember | RiftJudgeCompanion/app/src/main/java/com/example/riftcompanion/MainActivity.kt:803 | With distinct names, a lookup finds the value stored under the name |
| Json.GetString | RiftJudgeCompanion/app/src/main/java/com/example/riftcompanion/MainActivity.kt:804 | `getString` throws only when the name is missing |
| Json.OptString | RiftJudgeCompanion/app/src/main/java/com/example/riftcompanion/MainActivity.kt:805 | `optString` gives the fallback for a missing name and the string value otherwise |
| Wrappers.AllSomeFailsIff | RiftJudgeCompanion/app/src/main/java/com/example/riftcompanion/MainActivity.kt:855-857 | A run of steps inside one `try` fails exactly when one of its steps fails |
| Wrappers.AllSomeValues | RiftJudgeCompanion/app/src/main/java/com/example/riftcompanion/MainActivity.kt:796-853 | A run that succeeds holds one value per step, in step order |
| Wrappers.TakeWhileSome | RiftJudgeCompanion/app/src/main/java/com/example/riftcompanion/PenaltiesScreen.kt:333-338 | What the loop has appended when an exception is caught: the values of the steps before the first failure |
| Wrappers.TakeWhileSomeIs | RiftJudgeCompanion/app/src/main/java/com/example/riftcompanion/PenaltiesScreen.kt:333-338 | Those values are determined by where the first failure is |
| Wrappers.TakeWhileSomeAll | RiftJudgeCompanion/app/src/main/java/com/example/riftcompanion/PenaltiesScreen.kt:297-334 | With no failure, every value is kept |
| PyDict.Get | CoreRulesToJson/extract_from_PDF.py:145 | `d.get(k)` finds nothing exactly when `k` is not a key |
| PyDict.Put | CoreRulesToJson/extract_from_TXT.py:123 | `d[k] = v`: `k` gets `v` and no other key changes |
| PyDict.PutKeys | CoreRulesToJson/extract_from_TXT.py:123 | A key already present keeps its place; a new key goes last |
| PyDict.SetDefault | CoreRulesToJson/extract_from_TXT.py:82 | `setdefault` keeps an existing value, adds the default otherwise, and changes no other key |
| PyDict.SetDefaultKeys | CoreRulesToJson/extract_from_TXT.py:82 | A key already present keeps its place; a new key goes last |
| PyDict.PutSame | CoreRulesToJson/extract_from_TXT.py:139 | Writing back the value a key already has changes nothing |
| PyDict.MapValues | CoreRulesToJson/extract_from_TXT.py:173-176 | An edit of every value in place keeps the keys, in order, and maps each value |
| PyDict.MapValuesGet | CoreRulesToJson/extract_from_TXT.py:173-176 | After the edit every key holds the edited value it held before |
| RulebookText.LStrip | CoreRulesToJson/extract_from_TXT.py:32 | `lstrip` removes exactly the leading whitespace |
| RulebookText.RStrip | CoreRulesToJson/extract_from_TXT.py:53 | `rstrip` removes exactly the trailing whitespace |
| RulebookText.Strip | CoreRulesToJson/extract_from_TXT.py:32 | `strip` leaves no whitespace at either end |
| RulebookText.StripIdempotent | CoreRulesToJson/extract_from_TXT.py:32 | Stripping twice is stripping once |
| RulebookText.CollapseBlanks | CoreRulesToJson/extract_from_TXT.py:31 | The substitution leaves no tab and no two spaces in a row |
| RulebookText.CollapseKeepsNonBlanks | CoreRulesToJson/extract_from_TXT.py:31 | Every character other than spaces and tabs survives, in order |
| RulebookText.CollapseIdempotent | CoreRulesToJson/extract_from_TXT.py:31 | Collapsing twice is collapsing once |
| RulebookText.SplitLines | CoreRulesToJson/extract_from_TXT.py:32 | `splitlines` gives lines without line breaks |
| RulebookText.SplitLinesJoinLines | CoreRulesToJson/extract_from_TXT.py:32 | `splitlines` takes apart exactly what newline-terminated lines put together |
| RulebookText.StripAll | CoreRulesToJson/extract_from_TXT.py:32 | Each line is stripped, and the number of lines is kept |
| RulebookText.NonEmpty | CoreRulesToJson/extract_from_TXT.py:33 | Every non-empty line is kept as often as it occurs, no empty one, in the original order |
| RulebookText.NormalizeLines | CoreRulesToJson/extract_from_TXT.py:30-33 | The normalised lines are an order-preserving subsequence of the stripped lines of the collapsed text |
| RulebookText.NormalizedLineShape | CoreRulesToJson/extract_from_TXT.py:30-33 | Every normalised line is non-empty, stripped, has no tab, no two spaces in a row and no line break |
| RulebookText.NormalizedLineCount | CoreRulesToJson/extract_from_TXT.py:30-33 | A line survives exactly as often as its stripped form is a non-empty line of the collapsed text |
| RulebookText.NumberEndIsLongest | CoreRulesToJson/extract_from_TXT.py:27 | The greedy group star with backtracking ends the number at the last point of the run that a dot follows |
| RulebookText.IdMatchIsLongest | CoreRulesToJson/extract_from_TXT.py:27 | `ID_LINE_RE.match` reads the number right after the leading whitespace, as the longest reading that a dot follows |
| RulebookText.IdMatchNone | CoreRulesToJson/extract_from_TXT.py:27 | With no match, no number followed by a dot starts the line |
| RulebookText.IdLine | CoreRulesToJson/extract_from_TXT.py:74-77 | A numbered line gives a non-empty number and stripped content exactly when the pattern matches |
| RulebookText.BulletText | CoreRulesToJson/extract_from_TXT.py:148 | The bullet pattern matches exactly when the line starts with `*`, `•` or `-`, and the text it gives is stripped |
| RulebookText.BulletIsNotNumbered | CoreRulesToJson/extract_from_TXT.py:148 | A bullet line is never a numbered line |
| RulebookText.FindExample | CoreRulesToJson/extract_from_TXT.py:51 | The search finds the first whole-word, case-insensitive "Example"/"Examples", and nothing when there is none |
| RulebookText.StripAfterExample | CoreRulesToJson/extract_from_TXT.py:48-54 | The result is always a prefix of the input |
| RulebookText.StripAfterNoExample | CoreRulesToJson/extract_from_TXT.py:48-54 | Without the word, the line comes back unchanged |
| RulebookText.StripAfterFirstExample | CoreRulesToJson/extract_from_TXT.py:52-53 | With it, the result is the text before its first occurrence, right-stripped |
| RulebookText.StripAfterExampleHasNoExample | CoreRulesToJson/extract_from_TXT.py:48-54 | The result holds no occurrence of the word |
| RulebookText.SearchLastUpdated | CoreRulesToJson/extract_from_TXT.py:28 | A match yields a `YYYY-MM-DD` date; no result means no match anywhere |
| RulebookText.SearchFindsLeftmost | CoreRulesToJson/extract_from_TXT.py:28 | The search returns the date captured at the leftmost position where the pattern matches |
| RulebookText.LastDate | CoreRulesToJson/extract_from_TXT.py:62-65 | The header loop keeps a date exactly when some line holds one |
| RulebookText.LastDateIsLast | CoreRulesToJson/extract_from_TXT.py:62-65 | The date kept is the one of the last line that holds one |
| RulebookText.TopOfUndotted | CoreRulesToJson/extract_from_TXT.py:36 | A number without a dot is its own top part |
| RulebookText.Level1Agree | CoreRulesToJson/extract_from_PDF.py:38-43 | The two scripts' `is_level1` agree on every number and list |
| RulebookText.Level2TxtIff | CoreRulesToJson/extract_from_TXT.py:41-46 | The text script's `is_level2` holds exactly when the number itself is listed, so a dotted number is never level 2 unless listed |
| RulebookDoc.PutSection | CoreRulesToJson/extract_from_TXT.py:84 | The section gets the new value and no other section changes |
| RulebookDoc.EnsureSection | CoreRulesToJson/extract_from_TXT.py:82 | The section exists afterwards, keeps its value if it had one, and no other section changes |
| RulebookDoc.EnsureSubsection | CoreRulesToJson/extract_from_TXT.py:139 | The subsection exists afterwards |
| RulebookDoc.EnsureSubsectionPresent | CoreRulesToJson/extract_from_TXT.py:139 | `setdefault` on a present subsection changes nothing |
| RulebookDoc.PutSubsection | CoreRulesToJson/extract_from_TXT.py:96-98 | The write succeeds exactly when the section exists, and then stores the subsection |
| RulebookDoc.PutRule | CoreRulesToJson/extract_from_TXT.py:122-123 | The write succeeds exactly when the subsection exists, and then files the rule under its key |
| RulebookDoc.WithSection | CoreRulesToJson/extract_from_TXT.py:92-94 | After the fallback there is a current section |
| RulebookDoc.WithSubsection | CoreRulesToJson/extract_from_TXT.py:105-111 | After the fallbacks there is a current section and subsection |
| RulebookDoc.Level1Opens | CoreRulesToJson/extract_from_TXT.py:79-89 | A level-1 line makes its section current with no current subsection and targets it; a section seen before keeps intro and subsections, and its title changes only for non-empty content; no other section changes |
| RulebookDoc.StartWf | CoreRulesToJson/extract_from_TXT.py:69-71 | The parse starts well formed |
| RulebookDoc.Level1KeepsWf | CoreRulesToJson/extract_from_TXT.py:79-89 | A level-1 line keeps the parse well formed |
| RulebookDoc.Level2KeepsWf | CoreRulesToJson/extract_from_TXT.py:91-103 | A level-2 line never raises in a well-formed parse and keeps it well formed |
| RulebookDoc.Level3KeepsWf | CoreRulesToJson/extract_from_TXT.py:105-125 | A level-3 line never raises in a well-formed parse and keeps it well formed |
| RulebookDoc.Level2Opens | CoreRulesToJson/extract_from_TXT.py:91-103 | A level-2 line makes its subsection current inside the current section (or "000"); a subsection seen before keeps content and rules, and its title changes only for non-empty content |
| RulebookDoc.Level2KeepsRules | CoreRulesToJson/extract_from_TXT.py:96 | A level-2 line files no rule: its subsection keeps exactly the rules it had |
| RulebookDoc.Level3Files | CoreRulesToJson/extract_from_TXT.py:105-125 | A level-3 line files its rule under its full number in the current subsection, falling back to section and subsection "000", replacing any rule filed there |
| RulebookDoc.GrowsTrans | CoreRulesToJson/extract_from_TXT.py:73-163 | Documents only ever grow: keeping every section, subsection and rule is transitive |
| ExtractTxt.HeaderDate | CoreRulesToJson/extract_from_TXT.py:62-67 | `lastUpdated` is a `YYYY-MM-DD` date or the default "2025-10-01" |
| ExtractTxt.NewRule | CoreRulesToJson/extract_from_TXT.py:114-123 | A level-3 rule has an empty title, no flag and a list of examples |
| ExtractTxt.NewRuleText | CoreRulesToJson/extract_from_TXT.py:114-121 | A level-3 bullet becomes the rule's one example with empty text; any other content is cut before its first "Example", which is gone from the text |
| ExtractTxt.ContinueRuleKeepsList | CoreRulesToJson/extract_from_TXT.py:147-163 | A rule with a list of examples keeps one after any continuation line, which never raises |
| ExtractTxt.ContinueKeepsGood | CoreRulesToJson/extract_from_TXT.py:127-163 | A continuation line never raises and keeps the loop's state well formed with a list of examples on the targeted rule |
| ExtractTxt.StepKeepsGood | CoreRulesToJson/extract_from_TXT.py:73-163 | Every line keeps that state and none raises |
| ExtractTxt.RunKeepsGood | CoreRulesToJson/extract_from_TXT.py:73-163 | The main loop keeps that state over any lines and never raises |
| ExtractTxt.ParseNeverFails | CoreRulesToJson/extract_from_TXT.py:59-165 | `parse_lines` never raises `KeyError` or `AttributeError`, whatever the lines and the id lists |
| ExtractTxt.LeadingTextDropped | CoreRulesToJson/extract_from_TXT.py:128-129 | Lines before the first numbered line are dropped |
| ExtractTxt.NumberedLine | CoreRulesToJson/extract_from_TXT.py:79-125 | A numbered line is level 1 when listed itself or by its top part, checked first; level 2 only when listed itself; any other is a rule filed under its full number |
| ExtractTxt.SectionContinues | CoreRulesToJson/extract_from_TXT.py:130-136 | A line continuing a section joins its intro after a space (or starts it) |
| ExtractTxt.SubsectionContinues | CoreRulesToJson/extract_from_TXT.py:137-143 | A line continuing a subsection joins its content after a space (or starts it) |
| ExtractTxt.RuleContinues | CoreRulesToJson/extract_from_TXT.py:144-163 | A bullet adds an example and starts the examples; an "Example" line only starts them; afterwards plain lines are dropped; before, a plain line joins the text after a space |
| ExtractTxt.ParseLines | CoreRulesToJson/extract_from_TXT.py:59-165 | The header loop and the main loop give `Parsed`, which always succeeds |
| ExtractTxt.ReadHeaderDate | CoreRulesToJson/extract_from_TXT.py:62-67 | The header loop gives `HeaderDate`: the last date among the first twenty lines, or the default |
| ExtractTxt.HeaderDateStep | CoreRulesToJson/extract_from_TXT.py:63-65 | A header line holding a date replaces the date found so far |
| ExtractTxt.UnflaggedRules | CoreRulesToJson/extract_from_TXT.py:173-176 | Removing the flags keeps every section (in order), subsection and rule, with the same title, text and examples, and no rule keeps a flag |
| ExtractTxt.UnflagRules | CoreRulesToJson/extract_from_TXT.py:175-176 | The innermost loop removes the flag from every rule of a subsection |
| ExtractTxt.UnflagSubsections | CoreRulesToJson/extract_from_TXT.py:174-176 | The middle loop removes the flags in every subsection of a section |
| ExtractTxt.RemoveStartedFlags | CoreRulesToJson/extract_from_TXT.py:173-176 | The clean-up loop gives the document with every flag removed |
| ExtractTxt.Convert | CoreRulesToJson/extract_from_TXT.py:167-176 | `main` without I/O: normalise, parse (which never raises) and remove the flags |
| ExtractPdf.LastTitle | CoreRulesToJson/extract_from_PDF.py:73-75 | A title is found exactly when a line holds "riftbound" and "rules", ignoring case, and it is stripped |
| ExtractPdf.LastTitleIsLast | CoreRulesToJson/extract_from_PDF.py:73-75 | The title found is the stripped text of the last line that names the rulebook |
| ExtractPdf.HeaderTitleIsLast | CoreRulesToJson/extract_from_PDF.py:73-75 | `doc["title"]` is the stripped last naming line among the first ten lines |
| ExtractPdf.HeaderTitleDefault | CoreRulesToJson/extract_from_PDF.py:73-75 | With no naming line among the first ten, `doc["title"]` keeps its default |
| ExtractPdf.HeaderCount | CoreRulesToJson/extract_from_PDF.py:73 | The header search looks at the first ten lines, or all when fewer |
| ExtractPdf.HeaderDate | CoreRulesToJson/extract_from_PDF.py:76-80 | `lastUpdated` is a `YYYY-MM-DD` date or the default "2025-10-01" |
| ExtractPdf.HeaderStep | CoreRulesToJson/extract_from_PDF.py:73-78 | A header line naming the rulebook replaces the title, one holding a date replaces the date |
| ExtractPdf.SectionId | CoreRulesToJson/extract_from_PDF.py:93 | The section id is the part before the first dot |
| ExtractPdf.NewRule | CoreRulesToJson/extract_from_PDF.py:123-135 | A level-3 rule has an empty title, the content cut at "Example" (a prefix of it), and the examples value it is created with |
| ExtractPdf.ContinueRuleKind | CoreRulesToJson/extract_from_PDF.py:158-172 | Continuing a rule raises exactly on a bullet when its examples are a string, and otherwise keeps the kind of its examples |
| ExtractPdf.ContinueKeepsWf | CoreRulesToJson/extract_from_PDF.py:139-172 | A continuation line raises in a well-formed parse exactly when it is a bullet continuing a rule with string examples, and otherwise keeps the parse well formed |
| ExtractPdf.StepKeepsWf | CoreRulesToJson/extract_from_PDF.py:86-172 | A line raises exactly when it is an unnumbered bullet continuing a rule with string examples |
| ExtractPdf.RunKeepsWf | CoreRulesToJson/extract_from_PDF.py:86-172 | The main loop keeps the parse well formed as long as it does not raise |
| ExtractPdf.RunNoneStays | CoreRulesToJson/extract_from_PDF.py:86-172 | Once a line has raised, the parse has raised |
| ExtractPdf.RuleThenBulletCrashes | CoreRulesToJson/extract_from_PDF.py:135 | A level-3 line followed by a bullet line raises on the bullet |
| ExtractPdf.BulletAfterRuleCrashes | CoreRulesToJson/extract_from_PDF.py:164 | The script as written raises on any bullet line directly after a level-3 line |
| ExtractPdf.CrashExample | CoreRulesToJson/extract_from_PDF.py:164 | With no level lists, the lines `1. Rule` and `- item` make the script raise |
| ExtractPdf.RunWithoutBullets | CoreRulesToJson/extract_from_PDF.py:86-172 | Without bullet lines the main loop as written never raises |
| ExtractPdf.ParseFailsOnlyOnBullets | CoreRulesToJson/extract_from_PDF.py:65-174 | When the parse as written raises, some line is a bullet |
| ExtractPdf.IntendedParseNeverFails | CoreRulesToJson/extract_from_PDF.py:161 | With the examples created as a list, as the continuation code expects, the parse never raises |
| ExtractPdf.DottedNumberReopensSubsection | CoreRulesToJson/extract_from_PDF.py:102-112 | A dotted number whose top part is a listed level-2 id re-opens that subsection and targets it, filing no rule |
| ExtractPdf.SectionContinues | CoreRulesToJson/extract_from_PDF.py:143-148 | A line continuing a section joins its intro after a newline (or starts it) |
| ExtractPdf.SubsectionContinues | CoreRulesToJson/extract_from_PDF.py:150-156 | A line continuing a subsection joins its content after a newline |
| ExtractPdf.RuleContinues | CoreRulesToJson/extract_from_PDF.py:158-172 | A bullet is appended to a list of examples; a line without "Example" joins the text after a newline; a line opening with the word adds nothing; examples and title stay |
| ExtractPdf.Parse | CoreRulesToJson/extract_from_PDF.py:65-174 | The header loop and the main loop give `Parsed`: the document, or `None` when a line raises |
| ExtractPdf.ReadHeader | CoreRulesToJson/extract_from_PDF.py:72-80 | The header loop gives the last title and the last date among the first ten lines, with their defaults |

## Left out

- Compose UI, layout, colours, gradients, the 500 ms highlight animation and `ZoomableImage` (float gesture maths).
  - The drawer toggle of the penalties screen (`PenaltiesScreen.kt:122-123`) is the same code as the rulebook drawer's. `Navigation.Toggled` states it once.
- Asset reading, `JSONObject` text parsing and `Log.e`. The loaders take the parsed tree as input.
  - A number carries the text `org.json` prints for it. Number formatting is library code.
- Coroutine plumbing:
  - the 1000 ms delay that clears the highlight;
  - `drawerState.open/close`;
  - the `-150` pixel offset.
- The scroll calls themselves. `RunScrollEffect` and `NavigateTo` return the indices the list would jump and animate to. `firstVisibleItemIndex` is a parameter.
- `extract_text_from_pdf` (pypdf), the hard-coded Windows paths, and `main`'s file reading, JSON writing and `print`.
  - `ExtractTxt.Convert` starts from the raw text and ends with the cleaned document.
- The tournament `LEVEL1_IDS`/`LEVEL2_IDS` lists in `extract_from_TXT.py`. They are overwritten before use, and one of them is missing a comma. The id lists are parameters (`LevelIds`) of both parses.
- Regex character classes are read as ASCII: `\d`, `\w`, `\b` and `[A-Za-z0-9]`. Case-insensitive matching and `lower()` fold ASCII letters only. Python 3 and Kotlin would also accept other Unicode digits, letters and case pairs.
- Sorting.InsertionSort: models the library sorts (TimSort behind `sorted()` and `sortedWith`) as a stable insertion sort. It is proved sorted and a permutation; stability is not stated as a property.
- ExtractTxt.RemoveStartedFlags: the flags are removed by rebuilding each rule, subsection and section value, not by popping keys from shared dictionaries in place. Aliasing between the dictionaries is not modelled.
- RulebookDoc.EnsureSubsection: states only that the subsection exists afterwards. What it keeps is stated separately by `RulebookDoc.EnsureSubsectionGrows` and `RulebookDoc.EnsureSubsectionPresent`.
- VersionOrder.ParseInt: its contract states the 32-bit bound and that the string is non-empty. That every decimal numeral reads back is stated by `VersionOrder.ParseIntDecimal`. Which other strings `toIntOrNull` rejects is not stated as a lemma.
- Strings.LexLess: compares Dafny `char`s, which are Unicode scalar values, while Kotlin's `String.compareTo` compares UTF-16 code units. The two orders differ only when, at the same position, one key has a character above U+FFFF and the other a character in U+E000–U+FFFF. Rule ids are ASCII digits and dots, so the loader's order is unaffected.
- Json.Keys: a `Json` object may repeat a member name, which a parsed `JSONObject` cannot (org.json keeps the last value, while `Json.Opt` returns the first). Repeated names are outside the model, so the "as often as it occurs" clauses about keys cover inputs the loaders never see.
- Json.GetString: a value that is not a string is rendered as text rather than raising, as `org.json` does. Escaping covers the short escapes and `\u00XX` control characters.

## Findings

| source | as written | input that shows it | evidently intended | confidence | as-written member | corrected member |
|---|---|---|---|---|---|---|
| CoreRulesToJson/extract_from_PDF.py:135 | A level-3 line files its rule with `"examples": ""`, a string. A bullet continuation line then calls `.append` on that string (line 164). This raises `AttributeError` and the whole conversion fails. | The lines `1. Rule` then `- item`, with empty level lists. | `"examples": []`, a list, as the continuation's own `setdefault` default and the text script use. Bullets are then collected as examples. | not executed | ExtractPdf.CrashExample | ExtractPdf.IntendedParseNeverFails |
