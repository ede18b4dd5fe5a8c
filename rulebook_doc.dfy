/** The nested document the two rulebook scripts build, and the steps of
    their line-by-line parse that they share: opening a section (level 1),
    opening a subsection (level 2), and filing a numbered rule under the
    current subsection (level 3), each with the `"000"` fallbacks. A lookup
    `d[k]` on a missing key raises `KeyError`; here it makes the step
    `None`. The invariant `Wf` says that never happens. */
module RulebookDoc {
  import opened Wrappers
  import opened PyDict

  /** The `"examples"` value of a rule: a list, or (in the PDF script) the
      string it is created with. */
  datatype Examples = ExList(items: seq<string>) | ExText(text: string)

  /** A sub-subsection `{"title", "text", "examples"}`, with the
      `"examples_started"` flag of the TXT script (`None` while the key is
      absent). */
  datatype Rule = Rule(title: string, text: string, examples: Examples, started: Option<bool>)

  datatype Subsection = Subsection(title: string, content: string, examples: seq<string>, rules: Dict<Rule>)

  datatype Section = Section(title: string, intro: string, subsections: Dict<Subsection>)

  datatype Doc = Doc(title: string, lastUpdated: string, sections: Dict<Section>)

  const EmptySection: Section := Section("", "", [])

  /** `build_empty_subsection()`. */
  const EmptySubsection: Subsection := Subsection("", "", [], [])

  /** The id of the section and subsection a rule is filed under when no
      numbered line has opened one. */
  const DefaultId: string := "000"

  /** The `lastUpdated` used when the header names no date. */
  const DefaultDate: string := "2025-10-01"

  /** `LEVEL1_IDS` and `LEVEL2_IDS`. */
  datatype LevelIds = LevelIds(level1: seq<string>, level2: seq<string>)

  /** `last_target`: `("section", sec)`, `("sub", sec, sub)` or
      `("subsub", sec, sub, key)`. */
  datatype Target =
    | SectionTarget(sec: string)
    | SubTarget(sec: string, sub: string)
    | RuleTarget(sec: string, sub: string, key: string)

  /** The parse's loop-carried variables: `doc`, `current_section`,
      `current_sub_id` and `last_target`. */
  datatype State = State(doc: Doc, section: Option<string>, subId: Option<string>, target: Option<Target>)

  function Start(title: string, lastUpdated: string): State {
    State(Doc(title, lastUpdated, []), None, None, None)
  }

  // ---------------------------------------------------------------------------
  // Lookups and updates
  // ---------------------------------------------------------------------------

  /** `doc["sections"][sec]`. */
  function SectionAt(doc: Doc, sec: string): Option<Section> {
    Get(doc.sections, sec)
  }

  /** `doc["sections"][sec]["subsections"][sub]`. */
  function SubsectionAt(doc: Doc, sec: string, sub: string): Option<Subsection> {
    match SectionAt(doc, sec)
    case None => None
    case Some(s) => Get(s.subsections, sub)
  }

  /** `doc["sections"][sec]["subsections"][sub]["subsubsections"][key]`. */
  function RuleAt(doc: Doc, sec: string, sub: string, key: string): Option<Rule> {
    match SubsectionAt(doc, sec, sub)
    case None => None
    case Some(x) => Get(x.rules, key)
  }

  /** `doc["sections"][sec] = s` (in place: the section's value changes). */
  function PutSection(doc: Doc, sec: string, s: Section): (r: Doc)
    ensures SectionAt(r, sec) == Some(s)
    ensures forall j :: j != sec ==> SectionAt(r, j) == SectionAt(doc, j)
  {
    doc.(sections := Put(doc.sections, sec, s))
  }

  /** `doc["sections"].setdefault(sec, {"title": "", "intro": "", "subsections": {}})`. */
  function EnsureSection(doc: Doc, sec: string): (r: Doc)
    ensures SectionAt(r, sec) == Some(SectionAt(doc, sec).GetOr(EmptySection))
    ensures forall j :: j != sec ==> SectionAt(r, j) == SectionAt(doc, j)
  {
    doc.(sections := SetDefault(doc.sections, sec, EmptySection))
  }

  /** `sections.setdefault(sec, ...)["subsections"].setdefault(sub, build_empty_subsection())`:
      both made if missing; nothing else changes. */
  function EnsureSubsection(doc: Doc, sec: string, sub: string): (r: Doc)
    ensures SubsectionAt(r, sec, sub).Some?
  {
    var d := EnsureSection(doc, sec);
    var s := SectionAt(d, sec).value;
    PutSection(d, sec, s.(subsections := SetDefault(s.subsections, sub, EmptySubsection)))
  }

  /** `doc["sections"][sec]["subsections"][sub] = x`. */
  function PutSubsection(doc: Doc, sec: string, sub: string, x: Subsection): (r: Option<Doc>)
    ensures r.Some? <==> SectionAt(doc, sec).Some?
    ensures r.Some? ==> SubsectionAt(r.value, sec, sub) == Some(x)
  {
    match SectionAt(doc, sec)
    case None => None
    case Some(s) => Some(PutSection(doc, sec, s.(subsections := Put(s.subsections, sub, x))))
  }

  /** `doc["sections"][sec]["subsections"][sub]["subsubsections"][key] = rule`. */
  function PutRule(doc: Doc, sec: string, sub: string, key: string, rule: Rule): (r: Option<Doc>)
    ensures r.Some? <==> SubsectionAt(doc, sec, sub).Some?
    ensures r.Some? ==> RuleAt(r.value, sec, sub, key) == Some(rule)
  {
    match SubsectionAt(doc, sec, sub)
    case None => None
    case Some(x) => PutSubsection(doc, sec, sub, x.(rules := Put(x.rules, key, rule)))
  }

  /** `prev + sep + ln` when `prev` is non-empty, else `ln`. */
  function Joined(prev: string, sep: string, ln: string): string {
    if prev != "" then prev + sep + ln else ln
  }

  // ---------------------------------------------------------------------------
  // The steps both scripts share
  // ---------------------------------------------------------------------------

  /** A level-1 line `num. content` opening section `sec`. */
  function Level1(st: State, sec: string, content: string): State {
    var d := EnsureSection(st.doc, sec);
    var s := SectionAt(d, sec).value;
    var d' := if content != "" then PutSection(d, sec, s.(title := content)) else d;
    State(d', Some(sec), None, Some(SectionTarget(sec)))
  }

  /** `if current_section is None: current_section = "000"` and that section
      made. */
  function WithSection(st: State): (r: State)
    ensures r.section.Some?
  {
    if st.section.None? then st.(doc := EnsureSection(st.doc, DefaultId), section := Some(DefaultId))
    else st
  }

  /** A level-2 line `num. content` opening subsection `subId` (the top part
      of `num`) in the current section. */
  function Level2(st: State, subId: string, content: string): Option<State> {
    var st1 := WithSection(st);
    var sec := st1.section.value;
    match SectionAt(st1.doc, sec)
    case None => None
    case Some(s) =>
      var subs := SetDefault(s.subsections, subId, EmptySubsection);
      var subs' := if content != "" then Put(subs, subId, Get(subs, subId).value.(title := content)) else subs;
      Some(State(PutSection(st1.doc, sec, s.(subsections := subs')), Some(sec), Some(subId), Some(SubTarget(sec, subId))))
  }

  /** `if current_sub_id is None:` subsection `"000"` made in the current
      section and made current. */
  function WithSubsection(st: State): (r: Option<State>)
    ensures r.Some? ==> r.value.section.Some? && r.value.subId.Some?
  {
    var st1 := WithSection(st);
    if st1.subId.Some? then Some(st1)
    else
      var sec := st1.section.value;
      match SectionAt(st1.doc, sec)
      case None => None
      case Some(s) =>
        var s' := s.(subsections := SetDefault(s.subsections, DefaultId, EmptySubsection));
        Some(st1.(doc := PutSection(st1.doc, sec, s'), subId := Some(DefaultId)))
  }

  /** A level-3 line filing `rule` under its full number `key`, replacing a
      rule already filed there. */
  function Level3(st: State, key: string, rule: Rule): Option<State> {
    match WithSubsection(st)
    case None => None
    case Some(st1) =>
      var sec := st1.section.value;
      var sub := st1.subId.value;
      match PutRule(st1.doc, sec, sub, key, rule)
      case None => None
      case Some(d) => Some(State(d, Some(sec), Some(sub), Some(RuleTarget(sec, sub, key))))
  }

  // ---------------------------------------------------------------------------
  // What the shared steps do
  // ---------------------------------------------------------------------------

  /** A level-1 line makes its section current with no current subsection
      and targets it; a section seen before keeps its intro and its
      subsections, and its title changes only when the line has content. */
  lemma Level1Opens(st: State, sec: string, content: string)
    ensures Level1(st, sec, content).section == Some(sec)
    ensures Level1(st, sec, content).subId == None
    ensures Level1(st, sec, content).target == Some(SectionTarget(sec))
    ensures SectionAt(Level1(st, sec, content).doc, sec).Some?
    ensures SectionAt(st.doc, sec).Some? ==>
      && SectionAt(Level1(st, sec, content).doc, sec).value.subsections == SectionAt(st.doc, sec).value.subsections
      && SectionAt(Level1(st, sec, content).doc, sec).value.intro == SectionAt(st.doc, sec).value.intro
    ensures SectionAt(Level1(st, sec, content).doc, sec).value.title
      == if content != "" then content else SectionAt(st.doc, sec).GetOr(EmptySection).title
    ensures forall j :: j != sec ==> SectionAt(Level1(st, sec, content).doc, j) == SectionAt(st.doc, j)
  {
  }

  /** Well-formedness: the current section exists, the current subsection
      exists inside it, and the last target exists. */
  predicate HasTarget(doc: Doc, t: Target) {
    match t
    case SectionTarget(sec) => SectionAt(doc, sec).Some?
    case SubTarget(sec, sub) => SubsectionAt(doc, sec, sub).Some?
    case RuleTarget(sec, sub, key) => RuleAt(doc, sec, sub, key).Some?
  }

  predicate Wf(st: State) {
    && (st.section.Some? ==> SectionAt(st.doc, st.section.value).Some?)
    && (st.subId.Some? ==> st.section.Some? && SubsectionAt(st.doc, st.section.value, st.subId.value).Some?)
    && (st.target.Some? ==> HasTarget(st.doc, st.target.value))
  }

  lemma StartWf(title: string, lastUpdated: string)
    ensures Wf(Start(title, lastUpdated))
  {
  }

  /** `b` still has every rule `a` has. */
  ghost predicate RulesKept(a: Subsection, b: Subsection) {
    forall key :: Get(a.rules, key).Some? ==> Get(b.rules, key).Some?
  }

  /** `b` still has every subsection and rule `a` has. */
  ghost predicate SubsKept(a: Section, b: Section) {
    forall sub :: Get(a.subsections, sub).Some? ==>
      Get(b.subsections, sub).Some? && RulesKept(Get(a.subsections, sub).value, Get(b.subsections, sub).value)
  }

  /** `d2` still has every section, subsection and rule `d1` has. */
  ghost predicate Grows(d1: Doc, d2: Doc) {
    forall sec :: SectionAt(d1, sec).Some? ==>
      SectionAt(d2, sec).Some? && SubsKept(SectionAt(d1, sec).value, SectionAt(d2, sec).value)
  }

  lemma GrowsKeepsWf(st: State, d: Doc)
    requires Wf(st) && Grows(st.doc, d)
    ensures Wf(st.(doc := d))
  {
    if st.target.Some? {
      match st.target.value
      case SectionTarget(sec) =>
      case SubTarget(sec, sub) =>
      case RuleTarget(sec, sub, key) =>
        assert SectionAt(st.doc, sec).Some?;
    }
  }

  lemma GrowsTrans(d1: Doc, d2: Doc, d3: Doc)
    requires Grows(d1, d2) && Grows(d2, d3)
    ensures Grows(d1, d3)
  {
  }

  lemma PutSectionGrows(doc: Doc, sec: string, s: Section)
    requires SectionAt(doc, sec).Some? ==> SubsKept(SectionAt(doc, sec).value, s)
    ensures Grows(doc, PutSection(doc, sec, s))
  {
  }

  lemma EnsureSectionGrows(doc: Doc, sec: string)
    ensures Grows(doc, EnsureSection(doc, sec))
  {
  }

  lemma SetDefaultSubsKept(s: Section, sub: string, x: Subsection)
    ensures SubsKept(s, s.(subsections := SetDefault(s.subsections, sub, x)))
  {
  }

  lemma PutSubsKept(s: Section, sub: string, x: Subsection)
    requires Get(s.subsections, sub).Some? ==> RulesKept(Get(s.subsections, sub).value, x)
    ensures SubsKept(s, s.(subsections := Put(s.subsections, sub, x)))
  {
  }

  lemma EnsureSubsectionGrows(doc: Doc, sec: string, sub: string)
    ensures Grows(doc, EnsureSubsection(doc, sec, sub))
  {
    var d := EnsureSection(doc, sec);
    EnsureSectionGrows(doc, sec);
    var s := SectionAt(d, sec).value;
    SetDefaultSubsKept(s, sub, EmptySubsection);
    PutSectionGrows(d, sec, s.(subsections := SetDefault(s.subsections, sub, EmptySubsection)));
    GrowsTrans(doc, d, EnsureSubsection(doc, sec, sub));
  }

  /** `setdefault` on a subsection that is there changes nothing. */
  lemma EnsureSubsectionPresent(doc: Doc, sec: string, sub: string)
    requires SubsectionAt(doc, sec, sub).Some?
    ensures EnsureSubsection(doc, sec, sub) == doc
  {
    assert EnsureSection(doc, sec) == doc;
    var s := SectionAt(doc, sec).value;
    assert s.(subsections := SetDefault(s.subsections, sub, EmptySubsection)) == s;
    PutSame(doc.sections, sec);
  }

  /** Replacing a subsection by one with at least its rules grows the
      document. */
  lemma PutSubsectionGrows(doc: Doc, sec: string, sub: string, x: Subsection)
    requires SubsectionAt(doc, sec, sub).Some? ==> RulesKept(SubsectionAt(doc, sec, sub).value, x)
    requires SectionAt(doc, sec).Some?
    ensures Grows(doc, PutSubsection(doc, sec, sub, x).value)
  {
    var s := SectionAt(doc, sec).value;
    PutSubsKept(s, sub, x);
    PutSectionGrows(doc, sec, s.(subsections := Put(s.subsections, sub, x)));
  }

  lemma PutRuleGrows(doc: Doc, sec: string, sub: string, key: string, rule: Rule)
    requires SubsectionAt(doc, sec, sub).Some?
    ensures Grows(doc, PutRule(doc, sec, sub, key, rule).value)
  {
    var x := SubsectionAt(doc, sec, sub).value;
    PutSubsectionGrows(doc, sec, sub, x.(rules := Put(x.rules, key, rule)));
  }

  /** A level-1 line keeps the parse well formed. */
  lemma Level1KeepsWf(st: State, sec: string, content: string)
    requires Wf(st)
    ensures Wf(Level1(st, sec, content))
  {
    var d := EnsureSection(st.doc, sec);
    EnsureSectionGrows(st.doc, sec);
    var s := SectionAt(d, sec).value;
    if content != "" {
      PutSectionGrows(d, sec, s.(title := content));
    }
  }

  lemma WithSectionKeepsWf(st: State)
    requires Wf(st)
    ensures Wf(WithSection(st)) && Grows(st.doc, WithSection(st).doc)
  {
    if st.section.None? {
      EnsureSectionGrows(st.doc, DefaultId);
      GrowsKeepsWf(st, EnsureSection(st.doc, DefaultId));
    } else {
      assert Grows(st.doc, st.doc);
    }
  }

  /** A level-2 line never raises in a well-formed parse, and keeps it well
      formed. */
  lemma Level2KeepsWf(st: State, subId: string, content: string)
    requires Wf(st)
    ensures Level2(st, subId, content).Some?
    ensures Wf(Level2(st, subId, content).value)
  {
    var st1 := WithSection(st);
    WithSectionKeepsWf(st);
    var sec := st1.section.value;
    var s := SectionAt(st1.doc, sec).value;
    var subs := SetDefault(s.subsections, subId, EmptySubsection);
    SetDefaultSubsKept(s, subId, EmptySubsection);
    var subs' := if content != "" then Put(subs, subId, Get(subs, subId).value.(title := content)) else subs;
    if content != "" {
      PutSubsKept(s.(subsections := subs), subId, Get(subs, subId).value.(title := content));
    }
    assert SubsKept(s, s.(subsections := subs'));
    PutSectionGrows(st1.doc, sec, s.(subsections := subs'));
    GrowsKeepsWf(st1, PutSection(st1.doc, sec, s.(subsections := subs')));
  }

  lemma WithSubsectionKeepsWf(st: State)
    requires Wf(st)
    ensures WithSubsection(st).Some?
    ensures Wf(WithSubsection(st).value)
  {
    var st1 := WithSection(st);
    WithSectionKeepsWf(st);
    if st1.subId.None? {
      var sec := st1.section.value;
      var s := SectionAt(st1.doc, sec).value;
      SetDefaultSubsKept(s, DefaultId, EmptySubsection);
      var s' := s.(subsections := SetDefault(s.subsections, DefaultId, EmptySubsection));
      PutSectionGrows(st1.doc, sec, s');
      GrowsKeepsWf(st1, PutSection(st1.doc, sec, s'));
    }
  }

  /** A level-3 line never raises in a well-formed parse, and keeps it well
      formed. */
  lemma Level3KeepsWf(st: State, key: string, rule: Rule)
    requires Wf(st)
    ensures Level3(st, key, rule).Some?
    ensures Wf(Level3(st, key, rule).value)
  {
    WithSubsectionKeepsWf(st);
    var st1 := WithSubsection(st).value;
    var sec := st1.section.value;
    var sub := st1.subId.value;
    PutRuleGrows(st1.doc, sec, sub, key, rule);
    GrowsKeepsWf(st1, PutRule(st1.doc, sec, sub, key, rule).value);
  }

  /** A level-2 line makes its subsection current inside the current
      section, or inside section `"000"` when there is none; a subsection
      seen before keeps its content and its rules, and its title changes only
      when the line has content. */
  lemma Level2Opens(st: State, subId: string, content: string)
    requires Wf(st)
    ensures Level2(st, subId, content).Some?
    ensures Level2(st, subId, content).value.section == Some(st.section.GetOr(DefaultId))
    ensures Level2(st, subId, content).value.subId == Some(subId)
    ensures Level2(st, subId, content).value.target == Some(SubTarget(st.section.GetOr(DefaultId), subId))
    ensures SubsectionAt(st.doc, st.section.GetOr(DefaultId), subId).Some? ==>
      && SubsectionAt(Level2(st, subId, content).value.doc, st.section.GetOr(DefaultId), subId).value.rules
         == SubsectionAt(st.doc, st.section.GetOr(DefaultId), subId).value.rules
      && SubsectionAt(Level2(st, subId, content).value.doc, st.section.GetOr(DefaultId), subId).value.content
         == SubsectionAt(st.doc, st.section.GetOr(DefaultId), subId).value.content
    ensures SubsectionAt(Level2(st, subId, content).value.doc, st.section.GetOr(DefaultId), subId).value.title
      == if content != "" then content else SubsectionAt(st.doc, st.section.GetOr(DefaultId), subId).GetOr(EmptySubsection).title
  {
    Level2KeepsWf(st, subId, content);
  }

  /** A level-2 line files no rule: the subsection it opens has exactly the
      rules it had before (none when it is new). */
  lemma Level2KeepsRules(st: State, subId: string, content: string, key: string)
    requires Wf(st)
    ensures Level2(st, subId, content).Some?
    ensures RuleAt(Level2(st, subId, content).value.doc, st.section.GetOr(DefaultId), subId, key)
      == RuleAt(st.doc, st.section.GetOr(DefaultId), subId, key)
  {
    Level2Opens(st, subId, content);
    if SubsectionAt(st.doc, st.section.GetOr(DefaultId), subId).None? {
      WithSectionKeepsWf(st);
      assert SectionAt(WithSection(st).doc, st.section.GetOr(DefaultId)).Some?;
    }
  }

  /** A level-3 line files its rule under its full number in the current
      subsection, falling back to section `"000"` and subsection `"000"`
      when none is open; it replaces a rule filed there before. */
  lemma Level3Files(st: State, key: string, rule: Rule)
    requires Wf(st)
    ensures Level3(st, key, rule).Some?
    ensures Level3(st, key, rule).value.section == Some(st.section.GetOr(DefaultId))
    ensures Level3(st, key, rule).value.subId == Some(st.subId.GetOr(DefaultId))
    ensures Level3(st, key, rule).value.target
      == Some(RuleTarget(st.section.GetOr(DefaultId), st.subId.GetOr(DefaultId), key))
    ensures RuleAt(Level3(st, key, rule).value.doc, st.section.GetOr(DefaultId), st.subId.GetOr(DefaultId), key)
      == Some(rule)
  {
    Level3KeepsWf(st, key, rule);
  }
}
