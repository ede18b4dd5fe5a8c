/** extract_from_TXT.py: the tournament-rules text turned into the nested
    rulebook document. Every numbered line opens a section (level 1), a
    subsection (level 2) or files a rule (level 3); every other line
    continues whatever the last numbered line opened. A rule's continuation
    lines add to its text until a line mentions "Example", and bullet lines
    collect as its examples. The lists of level-1 and level-2 ids are
    parameters. */
module ExtractTxt {
  import opened Wrappers
  import opened PyDict
  import opened RulebookDoc
  import RulebookText
  import Sequences

  /** The document title this script writes. */
  const Title: string := "Tournament Rules (Option B schema)"

  /** How many leading lines the header search looks at. */
  const HeaderLines: nat := 20

  /** `doc["lastUpdated"]` after the header search: the last date among the
      first twenty lines, or the default. */
  function HeaderDate(lines: seq<string>): (r: string)
    ensures RulebookText.IsDate(r) || r == DefaultDate
  {
    var n := if |lines| < HeaderLines then |lines| else HeaderLines;
    RulebookText.LastDate(lines[..n]).GetOr(DefaultDate)
  }

  /** The rule a level-3 line files: a bullet becomes its one example and
      leaves the text empty; otherwise the text is the content cut at the
      word "Example". The `examples_started` key is absent. */
  function NewRule(content: string): (r: Rule)
    ensures r.title == "" && r.started.None? && r.examples.ExList?
  {
    match RulebookText.BulletText(content)
    case Some(b) => Rule("", "", ExList([b]), None)
    case None => Rule("", RulebookText.StripAfterExample(content), ExList([]), None)
  }

  /** The rule a continuation line's `setdefault` makes when its target rule
      is missing. */
  const ContinuationRule: Rule := Rule("", "", ExList([]), Some(false))

  /** A continuation line applied to the rule it continues: a bullet adds an
      example (a string `examples` has no `append`: `None`), a line with the
      word "Example" only starts the examples, and any other line joins the
      text with a space unless the examples have started. */
  function ContinueRule(rule: Rule, ln: string): Option<Rule> {
    match RulebookText.BulletText(ln)
    case Some(b) =>
      (match rule.examples
       case ExList(items) => Some(rule.(examples := ExList(items + [b]), started := Some(true)))
       case ExText(_) => None)
    case None =>
      if RulebookText.HasExampleWord(ln) then Some(rule.(started := Some(true)))
      else if rule.started != Some(true) then
        var cleaned := RulebookText.StripAfterExample(ln);
        if cleaned != "" then Some(rule.(text := Joined(rule.text, " ", cleaned))) else Some(rule)
      else Some(rule)
  }

  /** A line that is not numbered, added to the last target: a section's
      intro or a subsection's content joined with a space, or a rule
      continued; before any numbered line it is dropped. */
  function Continue(st: State, ln: string): Option<State> {
    match st.target
    case None => Some(st)
    case Some(SectionTarget(sec)) =>
      var d := EnsureSection(st.doc, sec);
      var s := SectionAt(d, sec).value;
      Some(st.(doc := PutSection(d, sec, s.(intro := Joined(s.intro, " ", ln)))))
    case Some(SubTarget(sec, sub)) =>
      var d := EnsureSubsection(st.doc, sec, sub);
      var x := SubsectionAt(d, sec, sub).value;
      (match PutSubsection(d, sec, sub, x.(content := Joined(x.content, " ", ln)))
       case None => None
       case Some(d') => Some(st.(doc := d')))
    case Some(RuleTarget(sec, sub, key)) =>
      var d := EnsureSubsection(st.doc, sec, sub);
      var x := SubsectionAt(d, sec, sub).value;
      match ContinueRule(Get(x.rules, key).GetOr(ContinuationRule), ln)
      case None => None
      case Some(rule) =>
        match PutSubsection(d, sec, sub, x.(rules := Put(x.rules, key, rule)))
        case None => None
        case Some(d') => Some(st.(doc := d'))
  }

  /** One pass of the main loop over line `ln`. */
  function Step(ids: LevelIds, st: State, ln: string): Option<State> {
    match RulebookText.IdLine(ln)
    case Some((num, content)) =>
      if RulebookText.IsLevel1(num, ids.level1) then Some(Level1(st, RulebookText.Top(num), content))
      else if RulebookText.IsLevel2Txt(num, ids.level2) then Level2(st, RulebookText.Top(num), content)
      else Level3(st, num, NewRule(content))
    case None => Continue(st, ln)
  }

  /** The main loop over `lines` from state `st`. */
  function Run(ids: LevelIds, st: State, lines: seq<string>): Option<State>
    decreases |lines|
  {
    if lines == [] then Some(st)
    else
      match Run(ids, st, lines[..|lines| - 1])
      case None => None
      case Some(st') => Step(ids, st', lines[|lines| - 1])
  }

  /** `parse_lines(lines)`; `None` when it raises. */
  function Parsed(ids: LevelIds, lines: seq<string>): Option<Doc> {
    match Run(ids, Start(Title, HeaderDate(lines)), lines)
    case None => None
    case Some(st) => Some(st.doc)
  }

  // ---------------------------------------------------------------------------
  // The parse never raises
  // ---------------------------------------------------------------------------

  /** The state the loop keeps: well formed, and the rule it targets holds a
      list of examples. */
  predicate Good(st: State) {
    && Wf(st)
    && (st.target.Some? && st.target.value.RuleTarget? ==>
          var t := st.target.value;
          RuleAt(st.doc, t.sec, t.sub, t.key).value.examples.ExList?)
  }

  lemma PutRulesKept(x: Subsection, key: string, rule: Rule)
    ensures RulesKept(x, x.(rules := Put(x.rules, key, rule)))
  {
  }

  lemma SectionContinueKeepsGood(st: State, ln: string, sec: string)
    requires Good(st) && st.target == Some(SectionTarget(sec))
    ensures Continue(st, ln).Some? && Good(Continue(st, ln).value)
  {
    var s := SectionAt(st.doc, sec).value;
    assert SubsKept(s, s.(intro := Joined(s.intro, " ", ln)));
    PutSectionGrows(st.doc, sec, s.(intro := Joined(s.intro, " ", ln)));
    GrowsKeepsWf(st, PutSection(st.doc, sec, s.(intro := Joined(s.intro, " ", ln))));
  }

  lemma SubsectionContinueKeepsGood(st: State, ln: string, sec: string, sub: string)
    requires Good(st) && st.target == Some(SubTarget(sec, sub))
    ensures Continue(st, ln).Some? && Good(Continue(st, ln).value)
  {
    EnsureSubsectionPresent(st.doc, sec, sub);
    var x := SubsectionAt(st.doc, sec, sub).value;
    var x' := x.(content := Joined(x.content, " ", ln));
    assert RulesKept(x, x');
    PutSubsectionGrows(st.doc, sec, sub, x');
    GrowsKeepsWf(st, PutSubsection(st.doc, sec, sub, x').value);
  }

  /** A rule holding a list of examples still holds one after a
      continuation line, and the line never raises. */
  lemma ContinueRuleKeepsList(rule: Rule, ln: string)
    requires rule.examples.ExList?
    ensures ContinueRule(rule, ln).Some? && ContinueRule(rule, ln).value.examples.ExList?
  {
  }

  lemma RuleContinueKeepsGood(st: State, ln: string, sec: string, sub: string, key: string)
    requires Good(st) && st.target == Some(RuleTarget(sec, sub, key))
    ensures Continue(st, ln).Some? && Good(Continue(st, ln).value)
  {
    EnsureSubsectionPresent(st.doc, sec, sub);
    var x := SubsectionAt(st.doc, sec, sub).value;
    var prev := Get(x.rules, key).value;
    ContinueRuleKeepsList(prev, ln);
    var rule := ContinueRule(prev, ln).value;
    var x' := x.(rules := Put(x.rules, key, rule));
    PutRulesKept(x, key, rule);
    PutSubsectionGrows(st.doc, sec, sub, x');
    var d' := PutSubsection(st.doc, sec, sub, x').value;
    GrowsKeepsWf(st, d');
    assert RuleAt(d', sec, sub, key) == Some(rule);
    assert Continue(st, ln) == Some(st.(doc := d'));
  }

  /** A continuation line never raises and keeps the loop's state good. */
  lemma ContinueKeepsGood(st: State, ln: string)
    requires Good(st)
    ensures Continue(st, ln).Some? && Good(Continue(st, ln).value)
  {
    match st.target
    case None =>
    case Some(SectionTarget(sec)) => SectionContinueKeepsGood(st, ln, sec);
    case Some(SubTarget(sec, sub)) => SubsectionContinueKeepsGood(st, ln, sec, sub);
    case Some(RuleTarget(sec, sub, key)) => RuleContinueKeepsGood(st, ln, sec, sub, key);
  }

  /** Every line keeps the loop's state good and none raises. */
  lemma StepKeepsGood(ids: LevelIds, st: State, ln: string)
    requires Good(st)
    ensures Step(ids, st, ln).Some? && Good(Step(ids, st, ln).value)
  {
    match RulebookText.IdLine(ln)
    case Some((num, content)) =>
      if RulebookText.IsLevel1(num, ids.level1) {
        Level1KeepsWf(st, RulebookText.Top(num), content);
      } else if RulebookText.IsLevel2Txt(num, ids.level2) {
        Level2KeepsWf(st, RulebookText.Top(num), content);
      } else {
        Level3Files(st, num, NewRule(content));
        Level3KeepsWf(st, num, NewRule(content));
      }
    case None =>
      ContinueKeepsGood(st, ln);
  }

  lemma {:induction false} RunKeepsGood(ids: LevelIds, st: State, lines: seq<string>)
    requires Good(st)
    ensures Run(ids, st, lines).Some? && Good(Run(ids, st, lines).value)
    decreases |lines|
  {
    if lines != [] {
      RunKeepsGood(ids, st, lines[..|lines| - 1]);
      StepKeepsGood(ids, Run(ids, st, lines[..|lines| - 1]).value, lines[|lines| - 1]);
    }
  }

  /** `parse_lines` never raises `KeyError` or `AttributeError`, whatever
      the lines and the id lists. */
  lemma ParseNeverFails(ids: LevelIds, lines: seq<string>)
    ensures Parsed(ids, lines).Some?
  {
    StartWf(Title, HeaderDate(lines));
    RunKeepsGood(ids, Start(Title, HeaderDate(lines)), lines);
  }

  /** Lines before the first numbered line are dropped. */
  lemma {:induction false} LeadingTextDropped(ids: LevelIds, lines: seq<string>, title: string, date: string)
    requires forall k :: 0 <= k < |lines| ==> RulebookText.IdLine(lines[k]).None?
    ensures Run(ids, Start(title, date), lines) == Some(Start(title, date))
    decreases |lines|
  {
    if lines != [] {
      LeadingTextDropped(ids, lines[..|lines| - 1], title, date);
    }
  }

  // ---------------------------------------------------------------------------
  // What a line does
  // ---------------------------------------------------------------------------

  /** A numbered line is level 1 when listed itself or by its top part; it
      is level 2 only when listed itself (and not level 1); any other
      numbered line is a rule filed under its full number. */
  lemma NumberedLine(ids: LevelIds, st: State, ln: string, num: string, content: string)
    requires Good(st)
    requires RulebookText.IdLine(ln) == Some((num, content))
    ensures ids.level1 != [] && (num in ids.level1 || RulebookText.Top(num) in ids.level1) ==>
      Step(ids, st, ln) == Some(Level1(st, RulebookText.Top(num), content))
    ensures !RulebookText.IsLevel1(num, ids.level1) && num in ids.level2 ==>
      Step(ids, st, ln) == Level2(st, RulebookText.Top(num), content)
    ensures !RulebookText.IsLevel1(num, ids.level1) && num !in ids.level2 ==>
      && Step(ids, st, ln).Some?
      && Step(ids, st, ln).value.target == Some(RuleTarget(st.section.GetOr(DefaultId), st.subId.GetOr(DefaultId), num))
      && RuleAt(Step(ids, st, ln).value.doc, st.section.GetOr(DefaultId), st.subId.GetOr(DefaultId), num) == Some(NewRule(content))
  {
    RulebookText.Level2TxtIff(num, ids.level2);
    if !RulebookText.IsLevel1(num, ids.level1) && num !in ids.level2 {
      Level3Files(st, num, NewRule(content));
    }
  }

  /** A level-3 bullet is the rule's one example, without its mark; any
      other level-3 line keeps its content up to the first "Example", which
      is then gone from the text. */
  lemma NewRuleText(content: string, q: nat)
    ensures RulebookText.BulletText(content).Some? ==>
      NewRule(content).text == "" && NewRule(content).examples.items == [RulebookText.Strip(content[1..])]
    ensures RulebookText.BulletText(content).None? ==>
      && NewRule(content).examples.items == []
      && NewRule(content).text == content[..|NewRule(content).text|]
      && !RulebookText.ExampleAt(NewRule(content).text, q)
  {
    if RulebookText.BulletText(content).None? {
      RulebookText.StripAfterExampleHasNoExample(content, q);
    }
  }

  /** A line continuing a section adds itself to the intro, after a space
      when the intro is not empty; the title and subsections stay. */
  lemma SectionContinues(st: State, ln: string, sec: string)
    requires Good(st) && st.target == Some(SectionTarget(sec))
    ensures Continue(st, ln).Some?
    ensures SectionAt(Continue(st, ln).value.doc, sec)
      == Some(SectionAt(st.doc, sec).value.(intro := Joined(SectionAt(st.doc, sec).value.intro, " ", ln)))
  {
  }

  /** A line continuing a subsection adds itself to the content, after a
      space when the content is not empty. */
  lemma SubsectionContinues(st: State, ln: string, sec: string, sub: string)
    requires Good(st) && st.target == Some(SubTarget(sec, sub))
    ensures Continue(st, ln).Some?
    ensures SubsectionAt(Continue(st, ln).value.doc, sec, sub)
      == Some(SubsectionAt(st.doc, sec, sub).value.(content := Joined(SubsectionAt(st.doc, sec, sub).value.content, " ", ln)))
  {
  }

  /** A line continuing a rule: a bullet is appended to the examples, which
      start; a line mentioning "Example" only starts them; once they have
      started, other lines are dropped; before that, a non-empty line is
      joined to the text whole. */
  lemma RuleContinues(rule: Rule, ln: string)
    requires rule.examples.ExList?
    ensures ContinueRule(rule, ln).Some?
    ensures RulebookText.BulletText(ln).Some? ==>
      ContinueRule(rule, ln).value
        == rule.(examples := ExList(rule.examples.items + [RulebookText.Strip(ln[1..])]), started := Some(true))
    ensures RulebookText.BulletText(ln).None? && RulebookText.HasExampleWord(ln) ==>
      ContinueRule(rule, ln).value == rule.(started := Some(true))
    ensures RulebookText.BulletText(ln).None? && !RulebookText.HasExampleWord(ln) && rule.started == Some(true) ==>
      ContinueRule(rule, ln).value == rule
    ensures RulebookText.BulletText(ln).None? && !RulebookText.HasExampleWord(ln) && rule.started != Some(true) && ln != "" ==>
      ContinueRule(rule, ln).value == rule.(text := Joined(rule.text, " ", ln))
  {
    if RulebookText.BulletText(ln).None? && !RulebookText.HasExampleWord(ln) {
      RulebookText.StripAfterNoExample(ln);
    }
  }

  // ---------------------------------------------------------------------------
  // The loops of parse_lines and main
  // ---------------------------------------------------------------------------

  /** `parse_lines(lines)`: the header search over the first twenty lines,
      then the main loop. It never raises. */
  method ParseLines(ids: LevelIds, lines: seq<string>) returns (doc: Doc)
    ensures Parsed(ids, lines) == Some(doc)
  {
    var lastUpdated := ReadHeaderDate(lines);
    var st := Start(Title, lastUpdated);
    StartWf(Title, lastUpdated);
    assert lines[..0] == [];
    for i := 0 to |lines|
      invariant Run(ids, Start(Title, lastUpdated), lines[..i]) == Some(st)
      invariant Good(st)
    {
      RunPrefixStep(ids, Start(Title, lastUpdated), lines, i);
      StepKeepsGood(ids, st, lines[i]);
      st := Step(ids, st, lines[i]).value;
    }
    assert lines[..|lines|] == lines;
    doc := st.doc;
  }

  /** The header search: the last date among the first lines, or the
      default. */
  method ReadHeaderDate(lines: seq<string>) returns (lastUpdated: string)
    ensures lastUpdated == HeaderDate(lines)
  {
    var header := lines[..if |lines| < HeaderLines then |lines| else HeaderLines];
    lastUpdated := "";
    for k := 0 to |header|
      invariant lastUpdated == RulebookText.LastDate(header[..k]).GetOr("")
    {
      HeaderDateStep(header, k);
      var m := RulebookText.DateIn(header[k]);
      if m.Some? {
        lastUpdated := m.value;
      }
    }
    assert header[..|header|] == header;
    if lastUpdated == "" {
      lastUpdated := DefaultDate;
    }
  }

  /** One more header line: its date, if it holds one, replaces the one
      found so far. */
  lemma HeaderDateStep(header: seq<string>, k: nat)
    requires k < |header|
    ensures RulebookText.LastDate(header[..k + 1])
      == if RulebookText.DateIn(header[k]).Some? then RulebookText.DateIn(header[k]) else RulebookText.LastDate(header[..k])
  {
    var p := header[..k + 1];
    assert p[|p| - 1] == header[k] && p[..|p| - 1] == header[..k];
  }

  /** One more line of the input, one more step of the parse. */
  lemma RunPrefixStep(ids: LevelIds, st0: State, lines: seq<string>, i: nat)
    requires i < |lines|
    ensures Run(ids, st0, lines[..i + 1])
      == if Run(ids, st0, lines[..i]).None? then None else Step(ids, Run(ids, st0, lines[..i]).value, lines[i])
  {
    Sequences.TakeOne(lines, i);
    var p := lines[..i + 1];
    assert p[..|p| - 1] == lines[..i] && p[|p| - 1] == lines[i];
  }

  /** `ss.pop("examples_started", None)`. */
  function Unflag(rule: Rule): Rule {
    rule.(started := None)
  }

  function UnflagSubsection(x: Subsection): Subsection {
    x.(rules := MapValues(x.rules, Unflag))
  }

  function UnflagSection(s: Section): Section {
    s.(subsections := MapValues(s.subsections, UnflagSubsection))
  }

  /** The document with the internal flag removed from every rule. */
  function Unflagged(doc: Doc): Doc {
    doc.(sections := MapValues(doc.sections, UnflagSection))
  }

  /** Removing the flags keeps every section, subsection and rule, in the
      same order, and every rule's title, text and examples; no rule keeps
      a flag. */
  lemma UnflaggedRules(doc: Doc, sec: string, sub: string, key: string)
    ensures Keys(Unflagged(doc).sections) == Keys(doc.sections)
    ensures SectionAt(Unflagged(doc), sec).Some? <==> SectionAt(doc, sec).Some?
    ensures SubsectionAt(Unflagged(doc), sec, sub).Some? <==> SubsectionAt(doc, sec, sub).Some?
    ensures RuleAt(Unflagged(doc), sec, sub, key).Some? <==> RuleAt(doc, sec, sub, key).Some?
    ensures RuleAt(doc, sec, sub, key).Some? ==>
      RuleAt(Unflagged(doc), sec, sub, key) == Some(RuleAt(doc, sec, sub, key).value.(started := None))
  {
    MapValuesGet(doc.sections, UnflagSection, sec);
    if SectionAt(doc, sec).Some? {
      var s := SectionAt(doc, sec).value;
      MapValuesGet(s.subsections, UnflagSubsection, sub);
      if SubsectionAt(doc, sec, sub).Some? {
        MapValuesGet(SubsectionAt(doc, sec, sub).value.rules, Unflag, key);
      }
    }
  }

  /** The innermost loop of the flag clean-up, over one subsection's rules. */
  method UnflagRules(rules: Dict<Rule>) returns (r: Dict<Rule>)
    ensures r == MapValues(rules, Unflag)
  {
    r := [];
    for i := 0 to |rules|
      invariant r == MapValues(rules[..i], Unflag)
    {
      r := r + [Entry(rules[i].key, Unflag(rules[i].value))];
    }
    assert rules[..|rules|] == rules;
  }

  /** The middle loop, over one section's subsections. */
  method UnflagSubsections(subs: Dict<Subsection>) returns (r: Dict<Subsection>)
    ensures r == MapValues(subs, UnflagSubsection)
  {
    r := [];
    for i := 0 to |subs|
      invariant r == MapValues(subs[..i], UnflagSubsection)
    {
      var rules := UnflagRules(subs[i].value.rules);
      r := r + [Entry(subs[i].key, subs[i].value.(rules := rules))];
    }
    assert subs[..|subs|] == subs;
  }

  /** `main`'s clean-up loop over every section. */
  method RemoveStartedFlags(doc: Doc) returns (r: Doc)
    ensures r == Unflagged(doc)
  {
    var sections := [];
    for i := 0 to |doc.sections|
      invariant sections == MapValues(doc.sections[..i], UnflagSection)
    {
      var subs := UnflagSubsections(doc.sections[i].value.subsections);
      sections := sections + [Entry(doc.sections[i].key, doc.sections[i].value.(subsections := subs))];
    }
    assert doc.sections[..|doc.sections|] == doc.sections;
    r := doc.(sections := sections);
  }

  /** `main` without the file I/O: the raw text normalised, parsed, and its
      flags removed. */
  method Convert(ids: LevelIds, raw: string) returns (doc: Doc)
    ensures Parsed(ids, RulebookText.NormalizeLines(raw)).Some?
    ensures doc == Unflagged(Parsed(ids, RulebookText.NormalizeLines(raw)).value)
  {
    var lines := RulebookText.NormalizeLines(raw);
    var parsed := ParseLines(ids, lines);
    doc := RemoveStartedFlags(parsed);
  }
}
