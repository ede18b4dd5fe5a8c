/** The rulebook screen's navigation state: the search query and mode, the
    pending scroll target, the highlighted row and the drawer's expanded
    sections, with the handlers that change them. The list's scroll position
    is read from outside (`firstVisibleIndex`); the scroll calls themselves are
    returned as the indices they are given. */
module Navigation {
  import opened Wrappers
  import opened RuleDocument
  import RuleSearch
  import Strings

  /** How far the list may be from its target before the scroll first jumps. */
  const JumpStep := 10

  /** `v.coerceIn(lo, hi)`. */
  function CoerceIn(v: int, lo: int, hi: int): (r: int)
    requires lo <= hi
    ensures lo <= r <= hi
    ensures lo <= v <= hi ==> r == v
    ensures v < lo ==> r == lo
    ensures v > hi ==> r == hi
  {
    if v < lo then lo else if v > hi then hi else v
  }

  /** The row the list jumps to before animating to `index`: `JumpStep` rows
      short of it, on the side the list is coming from. */
  function SnapIndex(index: nat, firstVisible: nat, size: nat): (snap: int)
    requires index < size
    ensures 0 <= snap < size
    ensures -JumpStep <= snap - index <= JumpStep
    ensures index > firstVisible + JumpStep ==> snap == index - JumpStep && firstVisible < snap
    ensures index + JumpStep < firstVisible ==> index <= snap < firstVisible
    ensures index > firstVisible ==> snap == (if index >= JumpStep then index - JumpStep else 0)
    ensures index <= firstVisible ==>
      snap == (if index + JumpStep <= size - 1 then index + JumpStep else size - 1)
  {
    var raw := if index > firstVisible then index - JumpStep else index + JumpStep;
    CoerceIn(raw, 0, size - 1)
  }

  /** Whether a section is expanded: `expandedSections[id] == true`. */
  predicate IsExpanded(m: map<string, bool>, id: string) {
    id in m && m[id]
  }

  /** The drawer's expansion map after a click on section `id`. */
  function Toggled(m: map<string, bool>, id: string): (r: map<string, bool>)
    ensures IsExpanded(r, id) == !IsExpanded(m, id)
    ensures forall k :: k != id ==> (k in r <==> k in m) && (k in r ==> r[k] == m[k])
  {
    if IsExpanded(m, id) then m - {id} else m[id := true]
  }

  /** The map only ever holds `true`: an entry is removed, never set to false. */
  predicate OnlyTrue(m: map<string, bool>) {
    forall k :: k in m ==> m[k]
  }

  /** Two clicks on the same section restore the drawer. */
  lemma ToggleTwiceRestores(m: map<string, bool>, id: string)
    requires OnlyTrue(m)
    ensures OnlyTrue(Toggled(m, id))
    ensures Toggled(Toggled(m, id), id) == m
  {
    var once := Toggled(m, id);
    var twice := Toggled(once, id);
    assert forall k :: k in twice <==> k in m;
    if IsExpanded(m, id) {
      assert twice[id] == m[id];
    }
  }

  class RuleBookScreen {
    const allRules: seq<FlatRuleItem>
    var searchQuery: string
    var isSearchActive: bool
    var targetScrollId: Option<string>
    var highlightedRuleId: Option<string>
    var expandedSections: map<string, bool>

    ghost predicate Valid()
      reads this
    {
      OnlyTrue(expandedSections)
    }

    constructor (rules: seq<FlatRuleItem>)
      ensures allRules == rules && searchQuery == "" && !isSearchActive
      ensures targetScrollId == None && highlightedRuleId == None && expandedSections == map[]
      ensures Valid()
    {
      allRules := rules;
      searchQuery := "";
      isSearchActive := false;
      targetScrollId := None;
      highlightedRuleId := None;
      expandedSections := map[];
    }

    /** The rows the list shows. */
    function DisplayedRules(): seq<FlatRuleItem>
      reads this
    {
      RuleSearch.Filter(allRules, searchQuery)
    }

    /** The ids of the full list, where every target is looked up. */
    function AllIds(): seq<string>
      reads this
    {
      RowIds(allRules)
    }

    /** `initiateScroll(ruleId)`, from a drawer entry, a search result or a
        link: leave search, show the full list, and aim at `ruleId` whether or
        not a row has that id. */
    method InitiateScroll(ruleId: string)
      modifies this
      ensures searchQuery == "" && !isSearchActive
      ensures targetScrollId == Some(ruleId) && highlightedRuleId == Some(ruleId)
      ensures expandedSections == old(expandedSections)
      ensures DisplayedRules() == allRules
    {
      searchQuery := "";
      isSearchActive := false;
      targetScrollId := Some(ruleId);
      highlightedRuleId := Some(ruleId);
    }

    /** The effect keyed on `targetScrollId`. It returns the index the list
        jumps to first, if it jumps, and the index it animates to, if any;
        the target is cleared in every case. */
    method RunScrollEffect(firstVisibleIndex: nat) returns (snapTo: Option<int>, animateTo: Option<int>)
      modifies this
      ensures targetScrollId == None
      ensures searchQuery == old(searchQuery) && isSearchActive == old(isSearchActive)
      ensures highlightedRuleId == old(highlightedRuleId) && expandedSections == old(expandedSections)
      ensures old(targetScrollId).None? || Strings.IndexOfFirst(AllIds(), old(targetScrollId).value) == -1 ==>
        snapTo.None? && animateTo.None?
      ensures old(targetScrollId).Some? && Strings.IndexOfFirst(AllIds(), old(targetScrollId).value) != -1 ==>
        var index := Strings.IndexOfFirst(AllIds(), old(targetScrollId).value);
        && animateTo == Some(index)
        && allRules[index].id == old(targetScrollId).value
        && (snapTo.Some? <==> index - firstVisibleIndex > JumpStep || firstVisibleIndex - index > JumpStep)
        && (snapTo.Some? ==> snapTo.value == SnapIndex(index, firstVisibleIndex, |allRules|))
    {
      snapTo, animateTo := None, None;
      if targetScrollId.Some? {
        var id := targetScrollId.value;
        var index := Strings.IndexOfFirst(AllIds(), id);
        if index != -1 {
          var currentVisibleIndex := firstVisibleIndex;
          var distance := if index - currentVisibleIndex < 0 then currentVisibleIndex - index else index - currentVisibleIndex;
          if distance > JumpStep {
            var snapIndex := if index > currentVisibleIndex then index - JumpStep else index + JumpStep;
            snapTo := Some(CoerceIn(snapIndex, 0, |allRules| - 1));
          }
          animateTo := Some(index);
        }
        targetScrollId := None;
      }
    }

    /** A click on a drawer section: collapse it when expanded, else expand it. */
    method ToggleSection(id: string)
      requires Valid()
      modifies this
      ensures Valid()
      ensures expandedSections == Toggled(old(expandedSections), id)
      ensures searchQuery == old(searchQuery) && isSearchActive == old(isSearchActive)
      ensures targetScrollId == old(targetScrollId) && highlightedRuleId == old(highlightedRuleId)
    {
      ToggleTwiceRestores(expandedSections, id);
      if IsExpanded(expandedSections, id) {
        expandedSections := expandedSections - {id};
      } else {
        expandedSections := expandedSections[id := true];
      }
    }

    /** Typing in the search field. */
    method SetQuery(query: string)
      modifies this
      ensures searchQuery == query && DisplayedRules() == RuleSearch.Filter(allRules, query)
      ensures isSearchActive == old(isSearchActive) && targetScrollId == old(targetScrollId)
      ensures highlightedRuleId == old(highlightedRuleId) && expandedSections == old(expandedSections)
    {
      searchQuery := query;
    }

    /** The search icon. */
    method OpenSearch()
      modifies this
      ensures isSearchActive && searchQuery == old(searchQuery)
      ensures targetScrollId == old(targetScrollId) && highlightedRuleId == old(highlightedRuleId)
      ensures expandedSections == old(expandedSections)
    {
      isSearchActive := true;
    }

    /** The close button of the search field: leave search and clear the query. */
    method CloseSearch()
      modifies this
      ensures !isSearchActive && searchQuery == "" && DisplayedRules() == allRules
      ensures targetScrollId == old(targetScrollId) && highlightedRuleId == old(highlightedRuleId)
      ensures expandedSections == old(expandedSections)
    {
      isSearchActive := false;
      searchQuery := "";
    }
  }

  /** Tapping a search result (or any navigation) and then running the effect
      scrolls to the first row of the full list with that id, even when the
      tapped row came from a filtered list; an unknown id scrolls nowhere but
      stays highlighted. */
  method NavigateTo(screen: RuleBookScreen, ruleId: string, firstVisibleIndex: nat)
      returns (snapTo: Option<int>, animateTo: Option<int>)
    modifies screen
    ensures screen.DisplayedRules() == screen.allRules && !screen.isSearchActive
    ensures screen.targetScrollId == None && screen.highlightedRuleId == Some(ruleId)
    ensures ruleId !in screen.AllIds() ==> snapTo.None? && animateTo.None?
    ensures ruleId in screen.AllIds() ==>
      && animateTo.Some? && 0 <= animateTo.value < |screen.allRules|
      && screen.allRules[animateTo.value].id == ruleId
      && (forall j :: 0 <= j < animateTo.value ==> screen.allRules[j].id != ruleId)
  {
    screen.InitiateScroll(ruleId);
    snapTo, animateTo := screen.RunScrollEffect(firstVisibleIndex);
    if ruleId in screen.AllIds() {
      var index := animateTo.value;
      forall j | 0 <= j < index ensures screen.allRules[j].id != ruleId {
        assert screen.AllIds()[j] == screen.allRules[j].id;
      }
    }
  }
}
