/** The rulebook screen's search: a blank query shows every row; otherwise
    the rows whose text, title or id contains the query, ignoring case, in
    their original order. */
module RuleSearch {
  import opened RuleDocument
  import Strings
  import opened Sequences

  /** A row the query finds: in its text, its title or its id. */
  predicate Matches(rule: FlatRuleItem, query: string) {
    || Strings.ContainsIgnoreCase(rule.text, query)
    || Strings.ContainsIgnoreCase(rule.title, query)
    || Strings.ContainsIgnoreCase(rule.id, query)
  }

  /** `rules.filter { matches }`: every matching row, as often as it occurs,
      no other row, and the original order. */
  function Keep(rules: seq<FlatRuleItem>, query: string): (r: seq<FlatRuleItem>)
    ensures forall x :: multiset(r)[x] == if Matches(x, query) then multiset(rules)[x] else 0
    ensures IsSubsequence(r, rules)
    decreases |rules|
  {
    if rules == [] then []
    else
      var rest := Keep(rules[1..], query);
      if Matches(rules[0], query) then
        KeepHead(rules, query, rest);
        [rules[0]] + rest
      else
        SkipHead(rules, query, rest);
        rest
  }

  /** A matching first row is kept in front of what the rest keeps. */
  lemma KeepHead(rules: seq<FlatRuleItem>, query: string, rest: seq<FlatRuleItem>)
    requires rules != [] && Matches(rules[0], query)
    requires forall x :: multiset(rest)[x] == if Matches(x, query) then multiset(rules[1..])[x] else 0
    requires IsSubsequence(rest, rules[1..])
    ensures forall x :: multiset([rules[0]] + rest)[x] == if Matches(x, query) then multiset(rules)[x] else 0
    ensures IsSubsequence([rules[0]] + rest, rules)
  {
    assert rules == [rules[0]] + rules[1..];
    assert ([rules[0]] + rest)[1..] == rest;
  }

  /** A first row the query misses is dropped; what the rest keeps cannot
      start with it, since the rest keeps only matching rows. */
  lemma SkipHead(rules: seq<FlatRuleItem>, query: string, rest: seq<FlatRuleItem>)
    requires rules != [] && !Matches(rules[0], query)
    requires forall x :: multiset(rest)[x] == if Matches(x, query) then multiset(rules[1..])[x] else 0
    requires IsSubsequence(rest, rules[1..])
    ensures forall x :: multiset(rest)[x] == if Matches(x, query) then multiset(rules)[x] else 0
    ensures IsSubsequence(rest, rules)
  {
    assert rules == [rules[0]] + rules[1..];
    if rest != [] {
      assert multiset(rest)[rest[0]] > 0;
      assert rest[0] != rules[0];
    }
  }

  /** `displayedRules` for a query. */
  function Filter(rules: seq<FlatRuleItem>, query: string): (r: seq<FlatRuleItem>)
    ensures Strings.IsBlank(query) ==> r == rules
    ensures !Strings.IsBlank(query) ==>
      && IsSubsequence(r, rules)
      && forall x :: multiset(r)[x] == if Matches(x, query) then multiset(rules)[x] else 0
  {
    if Strings.IsBlank(query) then rules else Keep(rules, query)
  }

  /** A row is shown exactly when it is in the list and, for a non-blank
      query, the query finds it. */
  lemma ShownIff(rules: seq<FlatRuleItem>, query: string, x: FlatRuleItem)
    ensures x in Filter(rules, query) <==> x in rules && (Strings.IsBlank(query) || Matches(x, query))
  {
    assert x in Filter(rules, query) <==> multiset(Filter(rules, query))[x] > 0;
    assert x in rules <==> multiset(rules)[x] > 0;
  }
}
