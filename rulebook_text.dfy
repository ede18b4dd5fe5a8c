/** The text helpers of the two rulebook scripts (extract_from_TXT.py and
    extract_from_PDF.py hold the same copies of most of them): Python's
    whitespace, `strip`, `splitlines`, the blank-collapsing `re.sub`,
    `normalize_lines`, scanners for the regular expressions the scripts use
    (the numbered line, the bullet, the whole word "Example(s)" and the
    "Last Updated" date), and the level tests over the id lists. Letters,
    digits and word characters are read as ASCII; whitespace is Python's
    `str.isspace`, which is also what `\s` matches. */
module RulebookText {
  import opened Wrappers
  import Strings
  import opened Sequences

  // ---------------------------------------------------------------------------
  // Whitespace and strip
  // ---------------------------------------------------------------------------

  /** `c.isspace()`. */
  predicate IsSpace(c: char) {
    ('\t' <= c <= '\r') || ('\U{1C}' <= c <= '\U{1F}') || c == ' ' || c == '\U{85}'
    || c == '\U{A0}' || c == '\U{1680}' || ('\U{2000}' <= c <= '\U{200A}')
    || c == '\U{2028}' || c == '\U{2029}' || c == '\U{202F}' || c == '\U{205F}' || c == '\U{3000}'
  }

  /** `s.lstrip()`: what is left after the whitespace at the front. */
  function LStrip(s: string): (r: string)
    ensures |r| <= |s| && r == s[|s| - |r|..]
    ensures r == [] || !IsSpace(r[0])
    ensures forall i :: 0 <= i < |s| - |r| ==> IsSpace(s[i])
    decreases |s|
  {
    if s != [] && IsSpace(s[0]) then LStrip(s[1..]) else s
  }

  /** `s.rstrip()`: what is left before the whitespace at the end. */
  function RStrip(s: string): (r: string)
    ensures |r| <= |s| && r == s[..|r|]
    ensures r == [] || !IsSpace(r[|r| - 1])
    ensures forall i :: |r| <= i < |s| ==> IsSpace(s[i])
    decreases |s|
  {
    if s != [] && IsSpace(s[|s| - 1]) then RStrip(s[..|s| - 1]) else s
  }

  /** Neither end of `s` is whitespace. */
  predicate IsStripped(s: string) {
    s == [] || (!IsSpace(s[0]) && !IsSpace(s[|s| - 1]))
  }

  /** `s.strip()`. */
  function Strip(s: string): (r: string)
    ensures IsStripped(r)
    ensures |r| <= |s|
  {
    RStrip(LStrip(s))
  }

  /** `strip` removes only the whitespace at the ends: a string whose ends
      are not whitespace is its own strip, so stripping twice is stripping
      once. */
  lemma StripStripped(s: string)
    requires IsStripped(s)
    ensures Strip(s) == s
  {
  }

  lemma StripIdempotent(s: string)
    ensures Strip(Strip(s)) == Strip(s)
  {
    StripStripped(Strip(s));
  }

  // ---------------------------------------------------------------------------
  // re.sub(r'[ \t]+', ' ', raw)
  // ---------------------------------------------------------------------------

  predicate IsSpaceOrTab(c: char) { c == ' ' || c == '\t' }

  /** No tab and no two spaces in a row: the shape the substitution leaves. */
  predicate Collapsed(s: string) {
    && (forall i :: 0 <= i < |s| ==> s[i] != '\t')
    && (forall i :: 0 <= i < |s| - 1 ==> !(s[i] == ' ' && s[i + 1] == ' '))
  }

  /** What is left of `s` after the run of spaces and tabs at its front. */
  function DropBlanks(s: string): (r: string)
    ensures |r| <= |s| && r == s[|s| - |r|..]
    ensures r == [] || !IsSpaceOrTab(r[0])
    ensures forall i :: 0 <= i < |s| - |r| ==> IsSpaceOrTab(s[i])
    decreases |s|
  {
    if s != [] && IsSpaceOrTab(s[0]) then DropBlanks(s[1..]) else s
  }

  /** `re.sub(r'[ \t]+', ' ', s)`: each run of spaces and tabs becomes one
      space; line breaks and every other character stay. */
  function CollapseBlanks(s: string): (r: string)
    ensures Collapsed(r)
    ensures r == [] <==> s == []
    ensures r != [] ==> (r[0] == ' ' <==> IsSpaceOrTab(s[0]))
    decreases |s|
  {
    if s == [] then []
    else if IsSpaceOrTab(s[0]) then
      [' '] + CollapseBlanks(DropBlanks(s[1..]))
    else [s[0]] + CollapseBlanks(s[1..])
  }

  /** The characters other than spaces and tabs, in order. */
  function NonBlanks(s: string): string
    decreases |s|
  {
    if s == [] then []
    else if IsSpaceOrTab(s[0]) then NonBlanks(s[1..])
    else [s[0]] + NonBlanks(s[1..])
  }

  lemma {:induction false} DropBlanksKeepsNonBlanks(s: string)
    ensures NonBlanks(DropBlanks(s)) == NonBlanks(s)
    decreases |s|
  {
    if s != [] && IsSpaceOrTab(s[0]) {
      DropBlanksKeepsNonBlanks(s[1..]);
    }
  }

  /** The substitution touches nothing but the blanks: every other
      character survives, in order. */
  lemma {:induction false} CollapseKeepsNonBlanks(s: string)
    ensures NonBlanks(CollapseBlanks(s)) == NonBlanks(s)
    decreases |s|
  {
    if s != [] {
      if IsSpaceOrTab(s[0]) {
        var d := DropBlanks(s[1..]);
        CollapseKeepsNonBlanks(d);
        DropBlanksKeepsNonBlanks(s[1..]);
        assert ([' '] + CollapseBlanks(d))[1..] == CollapseBlanks(d);
      } else {
        CollapseKeepsNonBlanks(s[1..]);
        assert ([s[0]] + CollapseBlanks(s[1..]))[1..] == CollapseBlanks(s[1..]);
      }
    }
  }

  /** A collapsed string is left as it is, so collapsing twice is collapsing
      once. */
  lemma {:induction false} CollapseCollapsed(s: string)
    requires Collapsed(s)
    ensures CollapseBlanks(s) == s
    decreases |s|
  {
    if s != [] {
      assert Collapsed(s[1..]);
      CollapseCollapsed(s[1..]);
      if IsSpaceOrTab(s[0]) {
        assert s[1..] == [] || !IsSpaceOrTab(s[1..][0]);
        assert DropBlanks(s[1..]) == s[1..];
        assert s == [' '] + s[1..];
      } else {
        assert s == [s[0]] + s[1..];
      }
    }
  }

  lemma CollapseIdempotent(s: string)
    ensures CollapseBlanks(CollapseBlanks(s)) == CollapseBlanks(s)
  {
    CollapseCollapsed(CollapseBlanks(s));
  }

  // ---------------------------------------------------------------------------
  // splitlines
  // ---------------------------------------------------------------------------

  /** The characters `str.splitlines()` breaks at. */
  predicate IsLineBreak(c: char) {
    ('\n' <= c <= '\r') || ('\U{1C}' <= c <= '\U{1E}') || c == '\U{85}' || c == '\U{2028}' || c == '\U{2029}'
  }

  predicate NoLineBreak(s: string) {
    forall i :: 0 <= i < |s| ==> !IsLineBreak(s[i])
  }

  /** The first line break at or after `i`, or the end of `s`. */
  function LineEnd(s: string, i: nat): (j: nat)
    requires i <= |s|
    ensures i <= j <= |s|
    ensures forall k :: i <= k < j ==> !IsLineBreak(s[k])
    ensures j < |s| ==> IsLineBreak(s[j])
    decreases |s| - i
  {
    if i == |s| || IsLineBreak(s[i]) then i else LineEnd(s, i + 1)
  }

  /** Where the line after the break at `n` starts: "\r\n" is one break. */
  function AfterBreak(s: string, n: nat): (next: nat)
    requires n < |s|
    ensures n < next <= |s|
  {
    if s[n] == '\r' && n + 1 < |s| && s[n + 1] == '\n' then n + 2 else n + 1
  }

  /** `s.splitlines()`: the text between line breaks, without the breaks,
      and no empty piece after a final break (`""` gives no line at all). */
  function SplitLines(s: string): (lines: seq<string>)
    ensures forall k :: 0 <= k < |lines| ==> NoLineBreak(lines[k])
    decreases |s|
  {
    if s == [] then []
    else
      var n := LineEnd(s, 0);
      if n == |s| then [s]
      else [s[..n]] + SplitLines(s[AfterBreak(s, n)..])
  }

  /** Lines each ended by "\n", glued together. */
  function JoinLines(lines: seq<string>): string
    decreases |lines|
  {
    if lines == [] then "" else lines[0] + "\n" + JoinLines(lines[1..])
  }

  /** `splitlines` takes apart exactly what "\n"-terminated lines put
      together. */
  lemma {:induction false} SplitLinesJoinLines(lines: seq<string>)
    requires forall k :: 0 <= k < |lines| ==> NoLineBreak(lines[k])
    ensures SplitLines(JoinLines(lines)) == lines
    decreases |lines|
  {
    if lines != [] {
      var l := lines[0];
      var rest := JoinLines(lines[1..]);
      var s := JoinLines(lines);
      assert s == l + "\n" + rest;
      assert s[|l|] == '\n';
      assert forall k :: 0 <= k < |l| ==> s[k] == l[k];
      assert LineEnd(s, 0) == |l|;
      assert AfterBreak(s, |l|) == |l| + 1;
      assert s[..|l|] == l;
      assert s[|l| + 1..] == rest;
      SplitLinesJoinLines(lines[1..]);
    }
  }

  /** A slice of a collapsed string is collapsed. */
  lemma SliceCollapsed(s: string, i: nat, j: nat)
    requires i <= j <= |s|
    requires Collapsed(s)
    ensures Collapsed(s[i..j])
  {
    var t := s[i..j];
    assert forall k :: 0 <= k < |t| ==> t[k] == s[i + k];
  }

  /** The lines of a collapsed text are collapsed. */
  lemma {:induction false} SplitLinesCollapsed(s: string)
    requires Collapsed(s)
    ensures forall k :: 0 <= k < |SplitLines(s)| ==> Collapsed(SplitLines(s)[k])
    decreases |s|
  {
    if s != [] {
      var n := LineEnd(s, 0);
      if n < |s| {
        var m := AfterBreak(s, n);
        SliceCollapsed(s, 0, n);
        SliceCollapsed(s, m, |s|);
        SplitLinesCollapsed(s[m..]);
      }
    }
  }

  /** What `strip` leaves is one slice of the line. */
  lemma StripIsSlice(s: string)
    ensures |s| - |LStrip(s)| + |Strip(s)| <= |s|
    ensures Strip(s) == s[|s| - |LStrip(s)|..|s| - |LStrip(s)| + |Strip(s)|]
  {
    var l := LStrip(s);
    var r := RStrip(l);
    assert l == s[|s| - |l|..];
    assert r == l[..|r|];
  }

  /** A slice keeps a line collapsed and free of line breaks. */
  lemma SliceKeepsShape(s: string, t: string, i: nat, j: nat)
    requires i <= j <= |s| && t == s[i..j]
    ensures Collapsed(s) ==> Collapsed(t)
    ensures NoLineBreak(s) ==> NoLineBreak(t)
  {
    assert forall k :: 0 <= k < |t| ==> t[k] == s[i + k];
  }

  /** Stripping keeps a line collapsed and free of line breaks. */
  lemma StripKeepsShape(s: string)
    ensures Collapsed(s) ==> Collapsed(Strip(s))
    ensures NoLineBreak(s) ==> NoLineBreak(Strip(s))
  {
    StripIsSlice(s);
    SliceKeepsShape(s, Strip(s), |s| - |LStrip(s)|, |s| - |LStrip(s)| + |Strip(s)|);
  }

  // ---------------------------------------------------------------------------
  // normalize_lines
  // ---------------------------------------------------------------------------

  /** `[ln.strip() for ln in lines]`. */
  function StripAll(lines: seq<string>): (r: seq<string>)
    ensures |r| == |lines|
    ensures forall i :: 0 <= i < |lines| ==> r[i] == Strip(lines[i])
  {
    seq(|lines|, i requires 0 <= i < |lines| => Strip(lines[i]))
  }

  /** `[ln for ln in lines if ln]`: every non-empty line, as often as it
      occurs, in its original order. */
  function NonEmpty(lines: seq<string>): (r: seq<string>)
    ensures forall x :: multiset(r)[x] == if x != "" then multiset(lines)[x] else 0
    ensures IsSubsequence(r, lines)
    decreases |lines|
  {
    if lines == [] then []
    else
      var rest := NonEmpty(lines[1..]);
      assert lines == [lines[0]] + lines[1..];
      if lines[0] != "" then [lines[0]] + rest
      else
        assert rest != [] ==> multiset(rest)[rest[0]] > 0 && rest[0] != lines[0];
        rest
  }

  /** `normalize_lines(raw)`. */
  function NormalizeLines(raw: string): (lines: seq<string>)
    ensures IsSubsequence(lines, StripAll(SplitLines(CollapseBlanks(raw))))
  {
    NonEmpty(StripAll(SplitLines(CollapseBlanks(raw))))
  }

  /** Every line `normalize_lines` returns is non-empty, has no whitespace at
      either end, holds no tab, no two spaces in a row and no line break. */
  lemma NormalizedLineShape(raw: string, i: nat)
    requires i < |NormalizeLines(raw)|
    ensures NormalizeLines(raw)[i] != ""
    ensures IsStripped(NormalizeLines(raw)[i])
    ensures Collapsed(NormalizeLines(raw)[i])
    ensures NoLineBreak(NormalizeLines(raw)[i])
  {
    var pieces := SplitLines(CollapseBlanks(raw));
    var stripped := StripAll(pieces);
    var x := NormalizeLines(raw)[i];
    assert multiset(NormalizeLines(raw))[x] > 0;
    assert x != "" && multiset(stripped)[x] > 0;
    assert x in stripped;
    var j :| 0 <= j < |stripped| && stripped[j] == x;
    SplitLinesCollapsed(CollapseBlanks(raw));
    StripKeepsShape(pieces[j]);
  }

  /** A line survives `normalize_lines` exactly as often as its stripped
      form is a non-empty piece of the collapsed text. */
  lemma NormalizedLineCount(raw: string, x: string)
    ensures multiset(NormalizeLines(raw))[x]
      == if x != "" then multiset(StripAll(SplitLines(CollapseBlanks(raw))))[x] else 0
  {
  }

  // ---------------------------------------------------------------------------
  // Runs of one character class
  // ---------------------------------------------------------------------------

  /** The end of the whitespace run starting at `i`. */
  function SkipSpace(s: string, i: nat): (j: nat)
    requires i <= |s|
    ensures i <= j <= |s|
    ensures forall k :: i <= k < j ==> IsSpace(s[k])
    ensures j == |s| || !IsSpace(s[j])
    decreases |s| - i
  {
    if i < |s| && IsSpace(s[i]) then SkipSpace(s, i + 1) else i
  }

  /** The end of the ASCII digit run starting at `i`. */
  function DigitRunEnd(s: string, i: nat): (j: nat)
    requires i <= |s|
    ensures i <= j <= |s|
    ensures forall k :: i <= k < j ==> Strings.IsAsciiDigit(s[k])
    ensures j == |s| || !Strings.IsAsciiDigit(s[j])
    decreases |s| - i
  {
    if i < |s| && Strings.IsAsciiDigit(s[i]) then DigitRunEnd(s, i + 1) else i
  }

  /** The end of the `[A-Za-z0-9]` run starting at `i`. */
  function AlnumRunEnd(s: string, i: nat): (j: nat)
    requires i <= |s|
    ensures i <= j <= |s|
    ensures forall k :: i <= k < j ==> Strings.IsAsciiAlnum(s[k])
    ensures j == |s| || !Strings.IsAsciiAlnum(s[j])
    decreases |s| - i
  {
    if i < |s| && Strings.IsAsciiAlnum(s[i]) then AlnumRunEnd(s, i + 1) else i
  }

  // ---------------------------------------------------------------------------
  // ID_LINE_RE = ^\s*(\d{1,3}(?:\.[A-Za-z0-9]+)*)\.\s*(.*)$
  // ---------------------------------------------------------------------------

  /** A group `\.[A-Za-z0-9]+` can start at `q`. */
  predicate GroupAt(s: string, q: nat) {
    q + 1 < |s| && s[q] == '.' && Strings.IsAsciiAlnum(s[q + 1])
  }

  /** `s[q..e]` is a run of groups, each taking its whole alphanumeric run
      (a group that stopped early would leave a letter or digit where the
      next `.` must be). */
  predicate Chain(s: string, q: nat, e: nat)
    requires q <= |s|
    decreases |s| - q
  {
    q == e || (q < e && GroupAt(s, q) && Chain(s, AlnumRunEnd(s, q + 1), e))
  }

  /** The regular expression's reading of `s[p..e]` as the rule number, with
      the dot that must follow it at `e`: one to three digits (the whole
      digit run, since a group starts with a dot), then groups. */
  predicate NumberAt(s: string, p: nat, e: nat) {
    p <= |s| && 1 <= DigitRunEnd(s, p) - p <= 3
    && DigitRunEnd(s, p) <= e < |s| && Chain(s, DigitRunEnd(s, p), e) && s[e] == '.'
  }

  /** Where the number ends when the groups start at `q`: the greedy star
      takes as many groups as it can and gives them back one by one until a
      `.` follows, so this is the last dot-followed point of the run. */
  function NumberEnd(s: string, q: nat): (r: Option<nat>)
    requires q <= |s|
    ensures r.Some? ==> q <= r.value < |s| && s[r.value] == '.'
    decreases |s| - q
  {
    if q < |s| && s[q] == '.' then
      if GroupAt(s, q) then
        match NumberEnd(s, AlnumRunEnd(s, q + 1))
        case Some(e) => Some(e)
        case None => Some(q)
      else Some(q)
    else None
  }

  /** `NumberEnd` picks the longest reading: a point of the run followed by
      a dot, and no such point lies beyond it. */
  lemma {:induction false} NumberEndIsLongest(s: string, q: nat)
    requires q <= |s|
    ensures NumberEnd(s, q).Some? ==> Chain(s, q, NumberEnd(s, q).value)
    ensures forall e :: q <= e < |s| && s[e] == '.' && Chain(s, q, e) ==>
      NumberEnd(s, q).Some? && e <= NumberEnd(s, q).value
    decreases |s| - q
  {
    if q < |s| && s[q] == '.' && GroupAt(s, q) {
      var n := AlnumRunEnd(s, q + 1);
      NumberEndIsLongest(s, n);
    }
  }

  /** Where `ID_LINE_RE.match(s)` puts the number: `Some((p, e))` for the
      number `s[p..e]`, whose closing dot is at `e`. */
  function IdMatch(s: string): (r: Option<(nat, nat)>)
    ensures r.Some? ==> r.value.0 < r.value.1 < |s|
  {
    var p := SkipSpace(s, 0);
    var d := DigitRunEnd(s, p);
    if d == p || d - p > 3 then None
    else
      match NumberEnd(s, d)
      case None => None
      case Some(e) => Some((p, e))
  }

  /** The match starts right after the leading whitespace and reads the
      longest number that a dot follows. */
  lemma IdMatchIsLongest(s: string, p: nat, e: nat)
    requires IdMatch(s) == Some((p, e))
    ensures p == SkipSpace(s, 0) && NumberAt(s, p, e)
    ensures forall e': nat :: NumberAt(s, p, e') ==> e' <= e
  {
    NumberEndIsLongest(s, DigitRunEnd(s, p));
  }

  /** With no match, no number followed by a dot starts the line. */
  lemma IdMatchNone(s: string)
    requires IdMatch(s).None?
    ensures forall e: nat :: !NumberAt(s, SkipSpace(s, 0), e)
  {
    var p := SkipSpace(s, 0);
    NumberEndIsLongest(s, DigitRunEnd(s, p));
  }

  /** `m = ID_LINE_RE.match(ln)`, as `(m.group(1), m.group(2).strip())`. The
      text after the dot runs to the end of the line. */
  function IdLine(s: string): (r: Option<(string, string)>)
    ensures r.Some? <==> IdMatch(s).Some?
    ensures r.Some? ==> r.value.0 != "" && IsStripped(r.value.1)
  {
    match IdMatch(s)
    case None => None
    case Some((p, e)) => Some((s[p..e], Strip(s[e + 1..])))
  }

  // ---------------------------------------------------------------------------
  // The bullet pattern ^[\*••\-]\s*(.*)$
  // ---------------------------------------------------------------------------

  predicate IsBulletMark(c: char) {
    c == '*' || c == '\U{2022}' || c == '-'
  }

  /** `bm = re.match(r'^[\*••\-]\s*(.*)$', s)`, as `bm.group(1).strip()`. */
  function BulletText(s: string): (r: Option<string>)
    ensures r.Some? <==> s != [] && IsBulletMark(s[0])
    ensures r.Some? ==> IsStripped(r.value)
  {
    if s != [] && IsBulletMark(s[0]) then Some(Strip(s[1..])) else None
  }

  /** A bullet line is never a numbered line: its mark is neither
      whitespace nor a digit. */
  lemma BulletIsNotNumbered(s: string)
    requires BulletText(s).Some?
    ensures IdLine(s).None?
  {
    var c := s[0];
    assert IsBulletMark(c);
    assert !IsSpace(c) && !Strings.IsAsciiDigit(c);
    assert SkipSpace(s, 0) == 0;
    assert DigitRunEnd(s, 0) == 0;
    assert IdMatch(s).None?;
  }

  // ---------------------------------------------------------------------------
  // \bExamples?\b with re.I, and strip_after_example_line
  // ---------------------------------------------------------------------------

  /** `\bExamples?\b`, ignoring case, matches at `p`. */
  predicate ExampleAt(s: string, p: nat) {
    && p + 7 <= |s|
    && (p == 0 || !Strings.IsWordChar(s[p - 1]))
    && Strings.RegionMatchesIgnoreCase(s, p, "example")
    && (|| p + 7 == |s|
        || !Strings.IsWordChar(s[p + 7])
        || (Strings.CharEqualsIgnoreCase(s[p + 7], 's') && (p + 8 == |s| || !Strings.IsWordChar(s[p + 8]))))
  }

  /** `re.search(r'\bExamples?\b', s[from..], re.I)`: the first match at or
      after `from`. */
  function FindExample(s: string, from: nat): (r: Option<nat>)
    requires from <= |s|
    ensures r.Some? ==> from <= r.value && ExampleAt(s, r.value)
    ensures r.Some? ==> forall q :: from <= q < r.value ==> !ExampleAt(s, q)
    ensures r.None? ==> forall q :: from <= q ==> !ExampleAt(s, q)
    decreases |s| - from
  {
    if ExampleAt(s, from) then Some(from)
    else if from == |s| then None
    else FindExample(s, from + 1)
  }

  /** The line holds the word "Example" or "Examples", ignoring case. */
  predicate HasExampleWord(s: string) {
    FindExample(s, 0).Some?
  }

  /** `strip_after_example_line(s)`: always a prefix of `s`. */
  function StripAfterExample(s: string): (r: string)
    ensures |r| <= |s| && r == s[..|r|]
  {
    if s == [] then s
    else
      match FindExample(s, 0)
      case None => s
      case Some(p) => RStrip(s[..p])
  }

  /** Without the word, the line comes back unchanged. */
  lemma StripAfterNoExample(s: string)
    requires forall p :: !ExampleAt(s, p)
    ensures StripAfterExample(s) == s
  {
    if s != [] {
      assert FindExample(s, 0).None?;
    }
  }

  /** With it, what comes back is the text before the first occurrence,
      right-stripped. */
  lemma StripAfterFirstExample(s: string, p: nat)
    requires ExampleAt(s, p)
    requires forall q :: 0 <= q < p ==> !ExampleAt(s, q)
    ensures StripAfterExample(s) == RStrip(s[..p])
  {
    assert FindExample(s, 0) == Some(p);
  }

  /** A text that agrees with `s` up to its end, where `s` goes on with
      whitespace and then a match at `p`: a match in the text is a match in
      `s`, because a word the text ends with ends the same way in `s`. */
  lemma MatchBeforeCut(s: string, r: string, p: nat, q: nat)
    requires |r| <= p <= |s| && ExampleAt(s, p)
    requires forall k :: 0 <= k < |r| ==> r[k] == s[k]
    requires forall k :: |r| <= k < p ==> IsSpace(s[k])
    ensures ExampleAt(r, q) ==> ExampleAt(s, q)
  {
    if ExampleAt(r, q) {
      assert Strings.IsWordChar(r[q + 6]) by {
        assert Strings.CharEqualsIgnoreCase(r[q + 6], "example"[6]);
      }
      if q + 7 == |r| {
        if |r| < p {
          assert IsSpace(s[q + 7]);
        }
      } else if q + 8 == |r| && Strings.IsWordChar(r[q + 7]) {
        if |r| < p {
          assert IsSpace(s[q + 8]);
        }
      }
    }
  }

  /** The word is gone from what comes back: the cut-off text holds no
      "Example" or "Examples" of its own. */
  lemma StripAfterExampleHasNoExample(s: string, q: nat)
    ensures !ExampleAt(StripAfterExample(s), q)
  {
    var r := StripAfterExample(s);
    if s != [] && FindExample(s, 0).Some? {
      var p := FindExample(s, 0).value;
      assert forall k :: |r| <= k < p ==> IsSpace(s[k]) by {
        assert forall k :: |r| <= k < p ==> s[..p][k] == s[k];
      }
      MatchBeforeCut(s, r, p, q);
    }
  }

  // ---------------------------------------------------------------------------
  // LAST_UPDATED_RE = Last\s*Updated\s*[:\-]\s*(\d{4}-\d{2}-\d{2}), re.I
  // ---------------------------------------------------------------------------

  /** `YYYY-MM-DD` in ASCII digits at `q`. */
  predicate DateAt(s: string, q: nat) {
    && q + 10 <= |s|
    && (forall k :: q <= k < q + 4 ==> Strings.IsAsciiDigit(s[k]))
    && s[q + 4] == '-' && Strings.IsAsciiDigit(s[q + 5]) && Strings.IsAsciiDigit(s[q + 6])
    && s[q + 7] == '-' && Strings.IsAsciiDigit(s[q + 8]) && Strings.IsAsciiDigit(s[q + 9])
  }

  predicate IsDate(d: string) {
    DateAt(d, 0) && |d| == 10
  }

  /** The date the pattern captures when it matches at `p`. Each `\s*` is
      followed by something that is not whitespace, so taking the whole
      whitespace run is the only way to match. */
  function LastUpdatedAt(s: string, p: nat): (r: Option<string>)
    ensures r.Some? ==> IsDate(r.value)
  {
    if !Strings.RegionMatchesIgnoreCase(s, p, "last") then None
    else
      var q1 := SkipSpace(s, p + 4);
      if !Strings.RegionMatchesIgnoreCase(s, q1, "updated") then None
      else
        var q2 := SkipSpace(s, q1 + 7);
        if !(q2 < |s| && (s[q2] == ':' || s[q2] == '-')) then None
        else
          var q3 := SkipSpace(s, q2 + 1);
          if DateAt(s, q3) then Some(s[q3..q3 + 10]) else None
  }

  /** `LAST_UPDATED_RE.search(s[from..])`: the leftmost match. */
  function SearchLastUpdated(s: string, from: nat): (r: Option<string>)
    requires from <= |s|
    ensures r.Some? ==> IsDate(r.value)
    ensures r.None? ==> forall p :: from <= p <= |s| ==> LastUpdatedAt(s, p).None?
    decreases |s| - from
  {
    var here := LastUpdatedAt(s, from);
    if here.Some? || from == |s| then here
    else
      var r := SearchLastUpdated(s, from + 1);
      NoMatchFrom(s, from, r);
      r
  }

  /** No match at `from` and none after it: none from `from` on. */
  lemma NoMatchFrom(s: string, from: nat, r: Option<string>)
    requires from < |s| && LastUpdatedAt(s, from).None?
    requires r.None? ==> forall p :: from + 1 <= p <= |s| ==> LastUpdatedAt(s, p).None?
    ensures r.None? ==> forall p :: from <= p <= |s| ==> LastUpdatedAt(s, p).None?
  {
  }

  /** The search returns the date of the leftmost match. */
  lemma {:induction false} SearchFindsLeftmost(s: string, from: nat, p: nat)
    requires from <= p <= |s| && LastUpdatedAt(s, p).Some?
    requires forall q :: from <= q < p ==> LastUpdatedAt(s, q).None?
    ensures SearchLastUpdated(s, from) == LastUpdatedAt(s, p)
    decreases p - from
  {
    if from < p {
      assert LastUpdatedAt(s, from).None? && from < |s|;
      SearchSkips(s, from);
      assert forall q :: from + 1 <= q < p ==> LastUpdatedAt(s, q).None?;
      SearchFindsLeftmost(s, from + 1, p);
    } else {
      SearchHits(s, p);
    }
  }

  /** A match at `from` is what the search returns. */
  lemma SearchHits(s: string, from: nat)
    requires from <= |s| && LastUpdatedAt(s, from).Some?
    ensures SearchLastUpdated(s, from) == LastUpdatedAt(s, from)
  {
  }

  /** No match at `from`: the search goes on at the next position. */
  lemma SearchSkips(s: string, from: nat)
    requires from < |s| && LastUpdatedAt(s, from).None?
    ensures SearchLastUpdated(s, from) == SearchLastUpdated(s, from + 1)
  {
  }

  /** The date a line announces, if it has one. */
  function DateIn(ln: string): Option<string> {
    SearchLastUpdated(ln, 0)
  }

  /** The date of the last of `lines` that announces one: what the header
      loop leaves in `doc["lastUpdated"]`. */
  function LastDate(lines: seq<string>): (r: Option<string>)
    ensures r.Some? ==> IsDate(r.value)
    ensures r.None? <==> forall k :: 0 <= k < |lines| ==> DateIn(lines[k]).None?
    decreases |lines|
  {
    if lines == [] then None
    else
      match DateIn(lines[|lines| - 1])
      case Some(d) => Some(d)
      case None => LastDate(lines[..|lines| - 1])
  }

  /** A date announced by a line with no later announcement wins. */
  lemma {:induction false} LastDateIsLast(lines: seq<string>, k: nat)
    requires k < |lines| && DateIn(lines[k]).Some?
    requires forall j :: k < j < |lines| ==> DateIn(lines[j]).None?
    ensures LastDate(lines) == DateIn(lines[k])
    decreases |lines|
  {
    if k < |lines| - 1 {
      var init := lines[..|lines| - 1];
      assert forall j :: 0 <= j < |init| ==> init[j] == lines[j];
      LastDateIsLast(init, k);
    }
  }

  // ---------------------------------------------------------------------------
  // The level tests
  // ---------------------------------------------------------------------------

  /** `num.split('.')[0]`. */
  function Top(num: string): string {
    Strings.SplitOn(num, '.')[0]
  }

  /** A number without a dot is its own top part. */
  lemma TopOfUndotted(num: string)
    requires '.' !in num
    ensures Top(num) == num
  {
    Strings.FirstPieceIsPrefix(num, '.');
  }

  /** `is_level1(num)` of extract_from_TXT.py: listed itself or by its top
      part; with no list, an undotted number whose top part ends in "00". */
  predicate IsLevel1(num: string, level1Ids: seq<string>) {
    if level1Ids != [] then num in level1Ids || Top(num) in level1Ids
    else '.' !in num && Strings.EndsWith(Top(num), "00")
  }

  /** `is_level1(num)` of extract_from_PDF.py, which tests the number itself
      for "00" in the fallback. */
  predicate IsLevel1Pdf(num: string, level1Ids: seq<string>) {
    if level1Ids != [] then num in level1Ids || Top(num) in level1Ids
    else '.' !in num && Strings.EndsWith(num, "00")
  }

  /** The two scripts decide level 1 the same way. */
  lemma Level1Agree(num: string, level1Ids: seq<string>)
    ensures IsLevel1Pdf(num, level1Ids) <==> IsLevel1(num, level1Ids)
  {
    if '.' !in num {
      TopOfUndotted(num);
    }
  }

  /** `is_level2(num)` of extract_from_TXT.py. */
  predicate IsLevel2Txt(num: string, level2Ids: seq<string>) {
    if level2Ids != [] then num in level2Ids || ('.' !in num && Top(num) in level2Ids)
    else false
  }

  /** Its second disjunct adds nothing: a number is level 2 exactly when it
      is listed itself, so a dotted number that is not listed never is. */
  lemma Level2TxtIff(num: string, level2Ids: seq<string>)
    ensures IsLevel2Txt(num, level2Ids) <==> num in level2Ids
  {
    if '.' !in num {
      TopOfUndotted(num);
    }
  }

  /** `is_level2(num)` of extract_from_PDF.py: listed itself or by its top
      part, so "101.1" is level 2 when "101" is listed. */
  predicate IsLevel2Pdf(num: string, level2Ids: seq<string>) {
    if level2Ids != [] then num in level2Ids || Top(num) in level2Ids
    else false
  }
}
