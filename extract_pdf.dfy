/** extract_from_PDF.py: the core-rules text, as extracted from the PDF,
    turned into the same nested rulebook document. It differs from the text
    script in the header (it also takes the title), in joining continuation
    lines with a newline, in treating a dotted number as level 2 when its
    top part is listed, and in its rules: a level-3 line files a rule whose
    `examples` is the empty string, and continuation lines never start the
    examples. A bullet continuing such a rule calls `append` on that string,
    which raises; the parse below is parameterised by the value a level-3
    line gives `examples`, so that the script as written (`WrittenExamples`)
    and the evidently intended list (`IntendedExamples`) share one
    definition. The lists of level-1 and level-2 ids are parameters. */
module ExtractPdf {
  import opened Wrappers
  import opened PyDict
  import opened RulebookDoc
  import RulebookText
  import Sequences
  import Strings

  /** The document title used when the header names none. */
  const Title: string := "Riftbound Core Rules (Option B schema)"

  /** How many leading lines the header search looks at. */
  const HeaderLines: nat := 10

  /** What a level-3 line stores as `"examples"` in the script. */
  const WrittenExamples: Examples := ExText("")

  /** The list the continuation code expects there. */
  const IntendedExamples: Examples := ExList([])

  // ---------------------------------------------------------------------------
  // Header
  // ---------------------------------------------------------------------------

  /** The line names the rulebook: it holds "riftbound" and "rules",
      ignoring case. */
  predicate NamesRules(ln: string) {
    Strings.ContainsIgnoreCase(ln, "riftbound") && Strings.ContainsIgnoreCase(ln, "rules")
  }

  /** The last of `lines` that names the rulebook, stripped. */
  function LastTitle(lines: seq<string>): (r: Option<string>)
    ensures r.None? <==> forall k :: 0 <= k < |lines| ==> !NamesRules(lines[k])
    ensures r.Some? ==> RulebookText.IsStripped(r.value)
    decreases |lines|
  {
    if lines == [] then None
    else if NamesRules(lines[|lines| - 1]) then Some(RulebookText.Strip(lines[|lines| - 1]))
    else LastTitle(lines[..|lines| - 1])
  }

  /** A naming line with no naming line after it gives the title. */
  lemma {:induction false} LastTitleIsLast(lines: seq<string>, k: nat)
    requires k < |lines| && NamesRules(lines[k])
    requires forall j :: k < j < |lines| ==> !NamesRules(lines[j])
    ensures LastTitle(lines) == Some(RulebookText.Strip(lines[k]))
    decreases |lines|
  {
    if k < |lines| - 1 {
      var init := lines[..|lines| - 1];
      assert !NamesRules(lines[|lines| - 1]);
      assert forall j :: k < j < |init| ==> init[j] == lines[j];
      LastTitleIsLast(init, k);
    }
  }

  function HeaderCount(lines: seq<string>): (n: nat)
    ensures n <= |lines| && n <= HeaderLines
    ensures n == HeaderLines || n == |lines|
  {
    if |lines| < HeaderLines then |lines| else HeaderLines
  }

  /** `doc["title"]` after the header search. */
  function HeaderTitle(lines: seq<string>): string {
    LastTitle(lines[..HeaderCount(lines)]).GetOr(Title)
  }

  /** The title is the last naming line among the first `HeaderLines`,
      stripped, or the default title when none of them names the rulebook. */
  lemma HeaderTitleIsLast(lines: seq<string>, k: nat)
    requires k < HeaderCount(lines) && NamesRules(lines[k])
    requires forall j :: k < j < HeaderCount(lines) ==> !NamesRules(lines[j])
    ensures HeaderTitle(lines) == RulebookText.Strip(lines[k])
  {
    var head := lines[..HeaderCount(lines)];
    assert forall j :: k <= j < |head| ==> head[j] == lines[j];
    LastTitleIsLast(head, k);
  }

  lemma HeaderTitleDefault(lines: seq<string>)
    requires forall j :: 0 <= j < HeaderCount(lines) ==> !NamesRules(lines[j])
    ensures HeaderTitle(lines) == Title
  {
    var head := lines[..HeaderCount(lines)];
    assert forall j :: 0 <= j < |head| ==> head[j] == lines[j];
  }

  /** `doc["lastUpdated"]` after the header search. */
  function HeaderDate(lines: seq<string>): (r: string)
    ensures RulebookText.IsDate(r) || r == DefaultDate
  {
    RulebookText.LastDate(lines[..HeaderCount(lines)]).GetOr(DefaultDate)
  }

  // ---------------------------------------------------------------------------
  // The main loop
  // ---------------------------------------------------------------------------

  /** `num.split('.')[0] if '.' in num else num`. */
  function SectionId(num: string): (sec: string)
    ensures sec == RulebookText.Top(num)
  {
    if '.' in num then RulebookText.Top(num)
    else
      RulebookText.TopOfUndotted(num);
      num
  }

  /** The rule a level-3 line files: its text is the content cut at the word
      "Example"; bullets get no special treatment. */
  function NewRule(content: string, examples0: Examples): (r: Rule)
    ensures r.title == "" && r.started.None? && r.examples == examples0
    ensures |r.text| <= |content| && r.text == content[..|r.text|]
  {
    Rule("", RulebookText.StripAfterExample(content), examples0, None)
  }

  /** The rule a continuation line's `setdefault` makes when its target rule
      is missing. */
  const ContinuationRule: Rule := Rule("", "", ExList([]), None)

  /** A continuation line applied to the rule it continues: a bullet is
      appended to the examples (a string has no `append`: `None`); any other
      line, cut at the word "Example", joins the text with a newline when
      anything is left. */
  function ContinueRule(rule: Rule, ln: string): Option<Rule> {
    match RulebookText.BulletText(ln)
    case Some(b) =>
      (match rule.examples
       case ExList(items) => Some(rule.(examples := ExList(items + [b])))
       case ExText(_) => None)
    case None =>
      var cleaned := RulebookText.StripAfterExample(ln);
      if cleaned != "" then Some(rule.(text := Joined(rule.text, "\n", cleaned))) else Some(rule)
  }

  /** A line that is not numbered, added to the last target; here the
      target's section is looked up with `[]`, so a missing one raises. */
  function Continue(st: State, ln: string): Option<State> {
    match st.target
    case None => Some(st)
    case Some(SectionTarget(sec)) =>
      (match SectionAt(st.doc, sec)
       case None => None
       case Some(s) => Some(st.(doc := PutSection(st.doc, sec, s.(intro := Joined(s.intro, "\n", ln))))))
    case Some(SubTarget(sec, sub)) =>
      (match SectionAt(st.doc, sec)
       case None => None
       case Some(s) =>
         var x := Get(s.subsections, sub).GetOr(EmptySubsection);
         var x' := x.(content := Joined(x.content, "\n", ln));
         Some(st.(doc := PutSection(st.doc, sec, s.(subsections := Put(s.subsections, sub, x'))))))
    case Some(RuleTarget(sec, sub, key)) =>
      match SectionAt(st.doc, sec)
      case None => None
      case Some(s) =>
        var x := Get(s.subsections, sub).GetOr(EmptySubsection);
        match ContinueRule(Get(x.rules, key).GetOr(ContinuationRule), ln)
        case None => None
        case Some(rule) =>
          var x' := x.(rules := Put(x.rules, key, rule));
          Some(st.(doc := PutSection(st.doc, sec, s.(subsections := Put(s.subsections, sub, x')))))
  }

  /** One pass of the main loop over line `ln`, level-3 rules getting
      `examples0`. */
  function Step(ids: LevelIds, st: State, ln: string, examples0: Examples): Option<State> {
    match RulebookText.IdLine(ln)
    case Some((num, content)) =>
      if RulebookText.IsLevel1Pdf(num, ids.level1) then Some(Level1(st, SectionId(num), content))
      else if RulebookText.IsLevel2Pdf(num, ids.level2) then Level2(st, RulebookText.Top(num), content)
      else Level3(st, num, NewRule(content, examples0))
    case None => Continue(st, ln)
  }

  function Run(ids: LevelIds, st: State, lines: seq<string>, examples0: Examples): Option<State>
    decreases |lines|
  {
    if lines == [] then Some(st)
    else
      match Run(ids, st, lines[..|lines| - 1], examples0)
      case None => None
      case Some(st') => Step(ids, st', lines[|lines| - 1], examples0)
  }

  function StartOf(lines: seq<string>): State {
    Start(HeaderTitle(lines), HeaderDate(lines))
  }

  /** `parse(lines)` as written; `None` when it raises. */
  function Parsed(ids: LevelIds, lines: seq<string>): Option<Doc> {
    match Run(ids, StartOf(lines), lines, WrittenExamples)
    case None => None
    case Some(st) => Some(st.doc)
  }

  // ---------------------------------------------------------------------------
  // When the parse raises
  // ---------------------------------------------------------------------------

  /** The target is a rule whose examples are of the kind `examples0` is. */
  predicate TargetKind(st: State, examples0: Examples) {
    st.target.Some? && st.target.value.RuleTarget? ==>
      var t := st.target.value;
      RuleAt(st.doc, t.sec, t.sub, t.key).Some?
      && RuleAt(st.doc, t.sec, t.sub, t.key).value.examples.ExList? == examples0.ExList?
  }

  /** The one way a continuation line can raise in a well-formed parse: a
      bullet continuing a rule whose examples are a string. */
  predicate Crashes(st: State, ln: string) {
    && RulebookText.BulletText(ln).Some?
    && st.target.Some? && st.target.value.RuleTarget?
    && RuleAt(st.doc, st.target.value.sec, st.target.value.sub, st.target.value.key).Some?
    && RuleAt(st.doc, st.target.value.sec, st.target.value.sub, st.target.value.key).value.examples.ExText?
  }

  /** Continuing a rule raises exactly on a bullet when its examples are a
      string, and otherwise keeps the kind of its examples. */
  lemma ContinueRuleKind(rule: Rule, ln: string)
    ensures ContinueRule(rule, ln).None? <==> RulebookText.BulletText(ln).Some? && rule.examples.ExText?
    ensures ContinueRule(rule, ln).Some? ==> ContinueRule(rule, ln).value.examples.ExList? == rule.examples.ExList?
  {
  }

  lemma SectionContinueKeepsWf(st: State, ln: string, sec: string)
    requires Wf(st) && st.target == Some(SectionTarget(sec))
    ensures Continue(st, ln).Some? && Wf(Continue(st, ln).value)
  {
    var s := SectionAt(st.doc, sec).value;
    assert SubsKept(s, s.(intro := Joined(s.intro, "\n", ln)));
    PutSectionGrows(st.doc, sec, s.(intro := Joined(s.intro, "\n", ln)));
    GrowsKeepsWf(st, PutSection(st.doc, sec, s.(intro := Joined(s.intro, "\n", ln))));
  }

  lemma SubsectionContinueKeepsWf(st: State, ln: string, sec: string, sub: string)
    requires Wf(st) && st.target == Some(SubTarget(sec, sub))
    ensures Continue(st, ln).Some? && Wf(Continue(st, ln).value)
  {
    var s := SectionAt(st.doc, sec).value;
    var x := Get(s.subsections, sub).value;
    var x' := x.(content := Joined(x.content, "\n", ln));
    assert RulesKept(x, x');
    PutSubsKept(s, sub, x');
    PutSectionGrows(st.doc, sec, s.(subsections := Put(s.subsections, sub, x')));
    GrowsKeepsWf(st, PutSection(st.doc, sec, s.(subsections := Put(s.subsections, sub, x'))));
  }

  lemma RuleContinueKeepsWf(st: State, ln: string, sec: string, sub: string, key: string, examples0: Examples)
    requires Wf(st) && TargetKind(st, examples0) && st.target == Some(RuleTarget(sec, sub, key))
    ensures Continue(st, ln).None? <==> Crashes(st, ln)
    ensures Continue(st, ln).Some? ==> Wf(Continue(st, ln).value) && TargetKind(Continue(st, ln).value, examples0)
  {
    var s := SectionAt(st.doc, sec).value;
    var x := Get(s.subsections, sub).value;
    var rule := Get(x.rules, key).value;
    ContinueRuleKind(rule, ln);
    if ContinueRule(rule, ln).Some? {
      var rule' := ContinueRule(rule, ln).value;
      var x' := x.(rules := Put(x.rules, key, rule'));
      var d := PutSection(st.doc, sec, s.(subsections := Put(s.subsections, sub, x')));
      assert Continue(st, ln) == Some(st.(doc := d));
      assert RulesKept(x, x');
      PutSubsKept(s, sub, x');
      PutSectionGrows(st.doc, sec, s.(subsections := Put(s.subsections, sub, x')));
      GrowsKeepsWf(st, d);
      assert RuleAt(d, sec, sub, key) == Some(rule');
    } else {
      assert Continue(st, ln).None?;
    }
  }

  /** A continuation line raises in a well-formed parse exactly when
      `Crashes` says, and otherwise keeps the parse well formed. */
  lemma ContinueKeepsWf(st: State, ln: string, examples0: Examples)
    requires Wf(st) && TargetKind(st, examples0)
    ensures Continue(st, ln).None? <==> Crashes(st, ln)
    ensures Continue(st, ln).Some? ==> Wf(Continue(st, ln).value) && TargetKind(Continue(st, ln).value, examples0)
  {
    match st.target
    case None =>
    case Some(SectionTarget(sec)) => SectionContinueKeepsWf(st, ln, sec);
    case Some(SubTarget(sec, sub)) => SubsectionContinueKeepsWf(st, ln, sec, sub);
    case Some(RuleTarget(sec, sub, key)) => RuleContinueKeepsWf(st, ln, sec, sub, key, examples0);
  }

  /** A line raises in a well-formed parse exactly when it is an unnumbered
      bullet continuing a rule whose examples are a string. */
  lemma StepKeepsWf(ids: LevelIds, st: State, ln: string, examples0: Examples)
    requires Wf(st) && TargetKind(st, examples0)
    ensures Step(ids, st, ln, examples0).None? <==> RulebookText.IdLine(ln).None? && Crashes(st, ln)
    ensures Step(ids, st, ln, examples0).Some? ==>
      Wf(Step(ids, st, ln, examples0).value) && TargetKind(Step(ids, st, ln, examples0).value, examples0)
  {
    match RulebookText.IdLine(ln)
    case Some((num, content)) =>
      if RulebookText.IsLevel1Pdf(num, ids.level1) {
        Level1KeepsWf(st, SectionId(num), content);
      } else if RulebookText.IsLevel2Pdf(num, ids.level2) {
        Level2KeepsWf(st, RulebookText.Top(num), content);
      } else {
        Level3Files(st, num, NewRule(content, examples0));
        Level3KeepsWf(st, num, NewRule(content, examples0));
      }
    case None =>
      ContinueKeepsWf(st, ln, examples0);
  }

  lemma {:induction false} RunKeepsWf(ids: LevelIds, st: State, lines: seq<string>, examples0: Examples)
    requires Wf(st) && TargetKind(st, examples0)
    ensures Run(ids, st, lines, examples0).Some? ==>
      Wf(Run(ids, st, lines, examples0).value) && TargetKind(Run(ids, st, lines, examples0).value, examples0)
    decreases |lines|
  {
    if lines != [] {
      var init := lines[..|lines| - 1];
      RunKeepsWf(ids, st, init, examples0);
      if Run(ids, st, init, examples0).Some? {
        StepKeepsWf(ids, Run(ids, st, init, examples0).value, lines[|lines| - 1], examples0);
      }
    }
  }

  /** Once a line has raised, the parse has raised. */
  lemma {:induction false} RunNoneStays(ids: LevelIds, st: State, lines: seq<string>, n: nat, examples0: Examples)
    requires n <= |lines| && Run(ids, st, lines[..n], examples0).None?
    ensures Run(ids, st, lines, examples0).None?
    decreases |lines|
  {
    if n < |lines| {
      var init := lines[..|lines| - 1];
      assert init[..n] == lines[..n];
      RunNoneStays(ids, st, init, n, examples0);
    } else {
      assert lines[..n] == lines;
    }
  }

  /** In a well-formed parse, a level-3 line followed by a bullet line
      raises on the bullet. */
  lemma RuleThenBulletCrashes(ids: LevelIds, st: State, ln1: string, ln2: string, num: string, content: string)
    requires Wf(st) && TargetKind(st, WrittenExamples)
    requires RulebookText.IdLine(ln1) == Some((num, content))
    requires !RulebookText.IsLevel1Pdf(num, ids.level1) && !RulebookText.IsLevel2Pdf(num, ids.level2)
    requires RulebookText.BulletText(ln2).Some?
    ensures Step(ids, st, ln1, WrittenExamples).Some?
    ensures Step(ids, Step(ids, st, ln1, WrittenExamples).value, ln2, WrittenExamples).None?
  {
    Level3Files(st, num, NewRule(content, WrittenExamples));
    Level3KeepsWf(st, num, NewRule(content, WrittenExamples));
    assert Step(ids, st, ln1, WrittenExamples) == Level3(st, num, NewRule(content, WrittenExamples));
    var st1 := Step(ids, st, ln1, WrittenExamples).value;
    RulebookText.BulletIsNotNumbered(ln2);
    assert Crashes(st1, ln2);
    StepKeepsWf(ids, st1, ln2, WrittenExamples);
  }

  lemma RunSnoc(ids: LevelIds, st: State, lines: seq<string>, ln: string, examples0: Examples)
    ensures Run(ids, st, lines + [ln], examples0)
      == if Run(ids, st, lines, examples0).None? then None else Step(ids, Run(ids, st, lines, examples0).value, ln, examples0)
  {
    assert (lines + [ln])[..|lines|] == lines;
  }

  lemma RunBulletAfterRule(ids: LevelIds, st0: State, lines: seq<string>, k: nat, num: string, content: string)
    requires Wf(st0) && TargetKind(st0, WrittenExamples)
    requires k + 1 < |lines|
    requires RulebookText.IdLine(lines[k]) == Some((num, content))
    requires !RulebookText.IsLevel1Pdf(num, ids.level1) && !RulebookText.IsLevel2Pdf(num, ids.level2)
    requires RulebookText.BulletText(lines[k + 1]).Some?
    ensures Run(ids, st0, lines, WrittenExamples).None?
  {
    Sequences.TakeTwo(lines, k);
    RunRuleThenBullet(ids, st0, lines[..k], lines[k], lines[k + 1], num, content);
    RunNoneStays(ids, st0, lines, k + 2, WrittenExamples);
  }

  /** Whatever comes before, a level-3 line then a bullet line raise. */
  lemma RunRuleThenBullet(ids: LevelIds, st0: State, a: seq<string>, ln1: string, ln2: string, num: string, content: string)
    requires Wf(st0) && TargetKind(st0, WrittenExamples)
    requires RulebookText.IdLine(ln1) == Some((num, content))
    requires !RulebookText.IsLevel1Pdf(num, ids.level1) && !RulebookText.IsLevel2Pdf(num, ids.level2)
    requires RulebookText.BulletText(ln2).Some?
    ensures Run(ids, st0, a + [ln1] + [ln2], WrittenExamples).None?
  {
    var b := a + [ln1];
    RunSnoc(ids, st0, a, ln1, WrittenExamples);
    RunSnoc(ids, st0, b, ln2, WrittenExamples);
    if Run(ids, st0, a, WrittenExamples).Some? {
      RunKeepsWf(ids, st0, a, WrittenExamples);
      RuleThenBulletCrashes(ids, Run(ids, st0, a, WrittenExamples).value, ln1, ln2, num, content);
    }
  }

  /** The script as written raises on any bullet line that directly follows
      a level-3 line: the rule's `examples` is the string `""`, which has no
      `append`. */
  lemma BulletAfterRuleCrashes(ids: LevelIds, lines: seq<string>, k: nat, num: string, content: string)
    requires k + 1 < |lines|
    requires RulebookText.IdLine(lines[k]) == Some((num, content))
    requires !RulebookText.IsLevel1Pdf(num, ids.level1) && !RulebookText.IsLevel2Pdf(num, ids.level2)
    requires RulebookText.BulletText(lines[k + 1]).Some?
    ensures Parsed(ids, lines).None?
  {
    StartWf(HeaderTitle(lines), HeaderDate(lines));
    RunBulletAfterRule(ids, StartOf(lines), lines, k, num, content);
  }

  lemma ExampleLines(s: string, t: string)
    requires s == "1. Rule" && t == "- item"
    ensures RulebookText.IdLine(s).Some? && RulebookText.IdLine(s).value.0 == "1"
    ensures RulebookText.BulletText(t).Some?
  {
    assert RulebookText.SkipSpace(s, 0) == 0;
    assert RulebookText.DigitRunEnd(s, 1) == 1;
    assert RulebookText.DigitRunEnd(s, 0) == 1;
    assert !RulebookText.GroupAt(s, 1);
    assert RulebookText.NumberEnd(s, 1) == Some(1);
    assert s[0..1] == "1";
  }

  /** For instance, with no level lists, the two lines `1. Rule` and
      `- item` make the script raise. */
  lemma CrashExample(lines: seq<string>)
    requires lines == ["1. Rule", "- item"]
    ensures Parsed(LevelIds([], []), lines).None?
  {
    ExampleLines(lines[0], lines[1]);
    var c := RulebookText.IdLine(lines[0]).value.1;
    assert !RulebookText.IsLevel1Pdf("1", []);
    BulletAfterRuleCrashes(LevelIds([], []), lines, 0, "1", c);
  }

  /** Without bullet lines the script as written never raises. */
  lemma {:induction false} RunWithoutBullets(ids: LevelIds, st: State, lines: seq<string>)
    requires Wf(st) && TargetKind(st, WrittenExamples)
    requires forall k :: 0 <= k < |lines| ==> RulebookText.BulletText(lines[k]).None?
    ensures Run(ids, st, lines, WrittenExamples).Some?
    decreases |lines|
  {
    if lines != [] {
      var init := lines[..|lines| - 1];
      RunWithoutBullets(ids, st, init);
      RunKeepsWf(ids, st, init, WrittenExamples);
      StepKeepsWf(ids, Run(ids, st, init, WrittenExamples).value, lines[|lines| - 1], WrittenExamples);
    }
  }

  /** So the parse as written raises only when some line is a bullet. */
  lemma ParseFailsOnlyOnBullets(ids: LevelIds, lines: seq<string>)
    requires Parsed(ids, lines).None?
    ensures exists k :: 0 <= k < |lines| && RulebookText.BulletText(lines[k]).Some?
  {
    if forall k :: 0 <= k < |lines| ==> RulebookText.BulletText(lines[k]).None? {
      StartWf(HeaderTitle(lines), HeaderDate(lines));
      RunWithoutBullets(ids, StartOf(lines), lines);
      assert false;
    }
  }

  /** With the examples a list, as the continuation code expects, the parse
      never raises. */
  lemma {:induction false} IntendedRunNeverFails(ids: LevelIds, st: State, lines: seq<string>)
    requires Wf(st) && TargetKind(st, IntendedExamples)
    ensures Run(ids, st, lines, IntendedExamples).Some?
    decreases |lines|
  {
    if lines != [] {
      var init := lines[..|lines| - 1];
      IntendedRunNeverFails(ids, st, init);
      RunKeepsWf(ids, st, init, IntendedExamples);
      StepKeepsWf(ids, Run(ids, st, init, IntendedExamples).value, lines[|lines| - 1], IntendedExamples);
    }
  }

  lemma IntendedParseNeverFails(ids: LevelIds, lines: seq<string>)
    ensures Run(ids, StartOf(lines), lines, IntendedExamples).Some?
  {
    StartWf(HeaderTitle(lines), HeaderDate(lines));
    IntendedRunNeverFails(ids, StartOf(lines), lines);
  }

  // ---------------------------------------------------------------------------
  // What a line does
  // ---------------------------------------------------------------------------

  /** A dotted number whose top part is a listed level-2 id does not file a
      rule: it re-opens that subsection (re-titling it when it has content)
      and becomes the target. */
  lemma DottedNumberReopensSubsection(ids: LevelIds, st: State, ln: string, num: string, content: string, examples0: Examples)
    requires Wf(st)
    requires RulebookText.IdLine(ln) == Some((num, content))
    requires !RulebookText.IsLevel1Pdf(num, ids.level1) && RulebookText.Top(num) in ids.level2
    ensures Step(ids, st, ln, examples0).Some?
    ensures Step(ids, st, ln, examples0).value.subId == Some(RulebookText.Top(num))
    ensures Step(ids, st, ln, examples0).value.target == Some(SubTarget(st.section.GetOr(DefaultId), RulebookText.Top(num)))
    ensures RuleAt(Step(ids, st, ln, examples0).value.doc, st.section.GetOr(DefaultId), RulebookText.Top(num), num)
      == RuleAt(st.doc, st.section.GetOr(DefaultId), RulebookText.Top(num), num)
  {
    Level2Opens(st, RulebookText.Top(num), content);
    Level2KeepsRules(st, RulebookText.Top(num), content, num);
    assert Step(ids, st, ln, examples0) == Level2(st, RulebookText.Top(num), content);
  }

  /** A line continuing a section joins its intro after a newline; a line
      continuing a subsection joins its content the same way. */
  lemma SectionContinues(st: State, ln: string, sec: string)
    requires Wf(st) && st.target == Some(SectionTarget(sec))
    ensures Continue(st, ln).Some?
    ensures SectionAt(Continue(st, ln).value.doc, sec)
      == Some(SectionAt(st.doc, sec).value.(intro := Joined(SectionAt(st.doc, sec).value.intro, "\n", ln)))
  {
  }

  lemma SubsectionContinues(st: State, ln: string, sec: string, sub: string)
    requires Wf(st) && st.target == Some(SubTarget(sec, sub))
    ensures Continue(st, ln).Some?
    ensures SubsectionAt(Continue(st, ln).value.doc, sec, sub)
      == Some(SubsectionAt(st.doc, sec, sub).value.(content := Joined(SubsectionAt(st.doc, sec, sub).value.content, "\n", ln)))
  {
  }

  /** A line continuing a rule: a bullet is appended to a list of examples;
      a line without the word "Example" joins the text whole, after a
      newline; one that opens with the word adds nothing; the title and
      examples stay. Unlike the text script, nothing stops later lines from
      joining the text. */
  lemma RuleContinues(rule: Rule, ln: string)
    ensures RulebookText.BulletText(ln).Some? && rule.examples.ExList? ==>
      ContinueRule(rule, ln) == Some(rule.(examples := ExList(rule.examples.items + [RulebookText.Strip(ln[1..])])))
    ensures RulebookText.BulletText(ln).None? ==>
      && ContinueRule(rule, ln).Some?
      && ContinueRule(rule, ln).value.examples == rule.examples
      && ContinueRule(rule, ln).value.title == rule.title
    ensures RulebookText.BulletText(ln).None? && !RulebookText.HasExampleWord(ln) && ln != "" ==>
      ContinueRule(rule, ln).value == rule.(text := Joined(rule.text, "\n", ln))
    ensures RulebookText.BulletText(ln).None? && RulebookText.ExampleAt(ln, 0) ==>
      ContinueRule(rule, ln).value == rule
  {
    if RulebookText.BulletText(ln).None? && !RulebookText.HasExampleWord(ln) {
      RulebookText.StripAfterNoExample(ln);
    }
  }

  // ---------------------------------------------------------------------------
  // The loops of parse
  // ---------------------------------------------------------------------------

  /** `parse(lines)` as written: the header search over the first ten lines,
      then the main loop; `None` when a line raises. */
  method Parse(ids: LevelIds, lines: seq<string>) returns (r: Option<Doc>)
    ensures r == Parsed(ids, lines)
  {
    var title, lastUpdated := ReadHeader(lines);
    var st := Start(title, lastUpdated);
    StartWf(title, lastUpdated);
    assert lines[..0] == [];
    for i := 0 to |lines|
      invariant Run(ids, StartOf(lines), lines[..i], WrittenExamples) == Some(st)
      invariant Wf(st) && TargetKind(st, WrittenExamples)
    {
      RunPrefixStep(ids, StartOf(lines), lines, i, WrittenExamples);
      StepKeepsWf(ids, st, lines[i], WrittenExamples);
      var next := Step(ids, st, lines[i], WrittenExamples);
      if next.None? {
        RunNoneStays(ids, StartOf(lines), lines, i + 1, WrittenExamples);
        return None;
      }
      st := next.value;
    }
    assert lines[..|lines|] == lines;
    r := Some(st.doc);
  }

  /** The header search: the last title and the last date among the first
      lines, with their defaults. */
  method ReadHeader(lines: seq<string>) returns (title: string, lastUpdated: string)
    ensures title == HeaderTitle(lines) && lastUpdated == HeaderDate(lines)
  {
    var header := lines[..HeaderCount(lines)];
    title := Title;
    lastUpdated := "";
    for k := 0 to |header|
      invariant title == LastTitle(header[..k]).GetOr(Title)
      invariant lastUpdated == RulebookText.LastDate(header[..k]).GetOr("")
    {
      HeaderStep(header, k);
      if NamesRules(header[k]) {
        title := RulebookText.Strip(header[k]);
      }
      var m := RulebookText.DateIn(header[k]);
      if m.Some? {
        lastUpdated := m.value;
      }
    }
    assert header[..|header|] == header;
    if lastUpdated == "" {
      lastUpdated := DefaultDate;
    }
  }

  /** One more header line: it names the rulebook or holds a date, or the
      search keeps what it had. */
  lemma HeaderStep(header: seq<string>, k: nat)
    requires k < |header|
    ensures LastTitle(header[..k + 1])
      == if NamesRules(header[k]) then Some(RulebookText.Strip(header[k])) else LastTitle(header[..k])
    ensures RulebookText.LastDate(header[..k + 1])
      == if RulebookText.DateIn(header[k]).Some? then RulebookText.DateIn(header[k]) else RulebookText.LastDate(header[..k])
  {
    var p := header[..k + 1];
    assert p[|p| - 1] == header[k] && p[..|p| - 1] == header[..k];
  }

  /** One more line of the input, one more step of the parse. */
  lemma RunPrefixStep(ids: LevelIds, st0: State, lines: seq<string>, i: nat, examples0: Examples)
    requires i < |lines|
    ensures Run(ids, st0, lines[..i + 1], examples0)
      == if Run(ids, st0, lines[..i], examples0).None? then None
         else Step(ids, Run(ids, st0, lines[..i], examples0).value, lines[i], examples0)
  {
    Sequences.TakeOne(lines, i);
    RunSnoc(ids, st0, lines[..i], lines[i], examples0);
  }
}
