/** `RuleTextWithLinks`: a rule's text with every `**` removed, cut into
    plain pieces and link pieces. A link is a rule number found by the
    pattern `\b\d{3}(?:\.[\w\d]+)*\b`, scanned left to right without overlap;
    here that pattern is a hand-written scanner over ASCII word characters. */
module RuleLinks {
  import opened Wrappers
  import Strings

  datatype Piece = Literal(text: string) | Link(target: string)

  function PieceText(p: Piece): string {
    match p
    case Literal(t) => t
    case Link(t) => t
  }

  /** The text a run of pieces shows, one after the other. */
  function Concat(ps: seq<Piece>): string
    decreases |ps|
  {
    if ps == [] then "" else PieceText(ps[0]) + Concat(ps[1..])
  }

  // ---------------------------------------------------------------------------
  // text.replace("**", "")
  // ---------------------------------------------------------------------------

  /** `s` without any `*`: what the stripping must leave untouched. */
  function NonStars(s: string): string
    decreases |s|
  {
    if s == [] then "" else (if s[0] == '*' then "" else [s[0]]) + NonStars(s[1..])
  }

  predicate HasDoubleStar(s: string) {
    exists i :: 0 <= i < |s| - 1 && s[i] == '*' && s[i + 1] == '*'
  }

  /** `replace("**", "")`: scanning from the left, each `**` is dropped and
      the scan goes on after it. No `**` is left, and nothing but stars goes. */
  function StripStars(s: string): (r: string)
    ensures !HasDoubleStar(r)
    ensures NonStars(r) == NonStars(s)
    ensures |s| >= 1 && s[0] != '*' ==> |r| >= 1 && r[0] == s[0]
    decreases |s|
  {
    if s == [] then ""
    else if |s| >= 2 && s[0] == '*' && s[1] == '*' then
      assert NonStars(s) == NonStars(s[1..]) && NonStars(s[1..]) == NonStars(s[2..]) by {
        assert s[1..][1..] == s[2..];
      }
      StripStars(s[2..])
    else
      var rest := StripStars(s[1..]);
      var r := [s[0]] + rest;
      assert r[1..] == rest;
      assert !HasDoubleStar(r) by {
        if s[0] == '*' {
          assert |s| == 1 || s[1] != '*';
          assert rest == [] || rest[0] != '*';
        }
        forall i | 1 <= i < |r| - 1 ensures !(r[i] == '*' && r[i + 1] == '*') {
          assert r[i] == rest[i - 1] && r[i + 1] == rest[i];
        }
      }
      r
  }

  /** `n` stars. */
  function Stars(n: nat): (r: string)
    ensures |r| == n && forall i :: 0 <= i < n ==> r[i] == '*'
  {
    seq(n, _ => '*')
  }

  /** Text that ends in a character other than `*` (or is empty): no `**`
      can start inside it and end after it. */
  predicate EndsPlain(a: string) {
    a == [] || a[|a| - 1] != '*'
  }

  predicate StartsPlain(b: string) {
    b == [] || b[0] != '*'
  }

  /** The scan never carries a star across a boundary after a plain
      character: the two sides are stripped on their own. */
  lemma {:induction false} StripStarsSplits(a: string, b: string)
    requires EndsPlain(a)
    ensures StripStars(a + b) == StripStars(a) + StripStars(b)
    decreases |a|
  {
    if a != [] {
      var s := a + b;
      assert s[0] == a[0];
      if |a| >= 2 && a[0] == '*' && a[1] == '*' {
        assert s[1] == a[1];
        assert s[2..] == a[2..] + b;
        assert EndsPlain(a[2..]);
        StripStarsSplits(a[2..], b);
        assert StripStars(s) == StripStars(s[2..]);
        assert StripStars(a) == StripStars(a[2..]);
      } else {
        assert !(|s| >= 2 && s[0] == '*' && s[1] == '*') by {
          if |a| == 1 {
            assert a[0] != '*';
          } else {
            assert s[1] == a[1];
          }
        }
        assert s[1..] == a[1..] + b;
        assert EndsPlain(a[1..]);
        StripStarsSplits(a[1..], b);
        assert StripStars(s) == [s[0]] + StripStars(s[1..]);
        assert StripStars(a) == [a[0]] + StripStars(a[1..]);
      }
    } else {
      assert a + b == b;
    }
  }

  /** A run of `n` stars before plain text keeps `n % 2` of them: the pairs
      go and an odd star stays. */
  lemma {:induction false} StripStarsRunPrefix(n: nat, b: string)
    requires StartsPlain(b)
    ensures StripStars(Stars(n) + b) == Stars(n % 2) + StripStars(b)
    decreases n
  {
    var s := Stars(n) + b;
    if n >= 2 {
      assert s[0] == '*' && s[1] == '*';
      assert s[2..] == Stars(n - 2) + b;
      StripStarsRunPrefix(n - 2, b);
      assert (n - 2) % 2 == n % 2;
      assert StripStars(s) == StripStars(s[2..]);
    } else if n == 1 {
      assert s[0] == '*';
      assert s[1..] == b;
      assert !(|s| >= 2 && s[1] == '*');
      assert StripStars(s) == [s[0]] + StripStars(s[1..]);
      assert Stars(n % 2) == [s[0]];
    } else {
      assert s == b;
      assert Stars(n % 2) == [];
    }
  }

  /** A maximal run of `n` stars between plain text is cut to `n % 2` stars,
      and the text on either side is stripped on its own: `"a*b**c"` shows as
      `"a*bc"`. */
  lemma StripStarsRun(a: string, n: nat, b: string)
    requires EndsPlain(a) && StartsPlain(b)
    ensures StripStars(a + Stars(n) + b) == StripStars(a) + Stars(n % 2) + StripStars(b)
  {
    assert a + Stars(n) + b == a + (Stars(n) + b);
    StripStarsSplits(a, Stars(n) + b);
    StripStarsRunPrefix(n, b);
  }

  /** A lone star is kept: the example above. */
  lemma LoneStarKept()
    ensures StripStars("a*b**c") == "a*bc"
  {
    StripStarsRun("a*b", 2, "c");
    StripStarsRun("a", 1, "b");
    StripStarsKeepsPlainText("c");
  }

  /** Text without `**` is shown as it is. */
  lemma {:induction false} StripStarsKeepsPlainText(s: string)
    requires !HasDoubleStar(s)
    ensures StripStars(s) == s
    decreases |s|
  {
    if s != [] {
      assert !HasDoubleStar(s[1..]) by {
        forall i | 0 <= i < |s[1..]| - 1 ensures !(s[1..][i] == '*' && s[1..][i + 1] == '*') {
          assert s[1..][i] == s[i + 1] && s[1..][i + 1] == s[i + 2];
        }
      }
      StripStarsKeepsPlainText(s[1..]);
    }
  }

  // ---------------------------------------------------------------------------
  // The link pattern
  // ---------------------------------------------------------------------------

  predicate IsWord(c: char) { Strings.IsWordChar(c) }

  /** A match starts at `p`: a word boundary, three digits, and no fourth word
      character (a `.` may follow). */
  predicate LinkStartsAt(s: string, p: nat) {
    && p + 3 <= |s|
    && (p == 0 || !IsWord(s[p - 1]))
    && Strings.IsAsciiDigit(s[p]) && Strings.IsAsciiDigit(s[p + 1]) && Strings.IsAsciiDigit(s[p + 2])
    && (p + 3 == |s| || !IsWord(s[p + 3]))
  }

  /** A group `.` + word characters starts at `q`. */
  predicate GroupAt(s: string, q: nat) {
    q + 1 < |s| && s[q] == '.' && IsWord(s[q + 1])
  }

  /** The end of the run of word characters from `q` (`[\w\d]+`, greedy). */
  function WordRunEnd(s: string, q: nat): (r: nat)
    requires q <= |s|
    ensures q <= r <= |s|
    ensures forall k :: q <= k < r ==> IsWord(s[k])
    ensures r == |s| || !IsWord(s[r])
    decreases |s| - q
  {
    if q < |s| && IsWord(s[q]) then WordRunEnd(s, q + 1) else q
  }

  /** `s[q..r]` is zero or more groups `.` + word characters. */
  predicate DotGroups(s: string, q: nat, r: nat)
    requires q <= r <= |s|
  {
    && (forall k :: q <= k < r ==> IsWord(s[k]) || s[k] == '.')
    && (forall k :: q <= k < r && s[k] == '.' ==> k + 1 < r && IsWord(s[k + 1]))
    && (q < r ==> s[q] == '.')
  }

  /** Where the groups after the three digits end: as many groups as there are,
      each taking every word character it can. */
  function LinkEnd(s: string, q: nat): (r: nat)
    requires q <= |s|
    ensures q <= r <= |s|
    decreases |s| - q
  {
    if GroupAt(s, q) then LinkEnd(s, WordRunEnd(s, q + 1)) else q
  }

  /** The groups end where no further group starts, on a word boundary. */
  lemma {:induction false} LinkEndShape(s: string, q: nat)
    requires q <= |s|
    ensures DotGroups(s, q, LinkEnd(s, q))
    ensures !GroupAt(s, LinkEnd(s, q))
    ensures q < LinkEnd(s, q) ==> LinkEnd(s, q) == |s| || !IsWord(s[LinkEnd(s, q)])
    decreases |s| - q
  {
    if GroupAt(s, q) {
      var next := WordRunEnd(s, q + 1);
      var r := LinkEnd(s, next);
      LinkEndShape(s, next);
      forall k | q <= k < r && s[k] == '.' ensures k + 1 < r && IsWord(s[k + 1]) {
        if k == q {
          assert q + 1 < next;
        }
      }
    }
  }

  /** The leftmost match starting at or after `from`. */
  function FindLink(s: string, from: nat): (r: Option<nat>)
    requires from <= |s|
    ensures r.Some? ==> from <= r.value && r.value + 3 <= |s|
    decreases |s| - from
  {
    if from + 3 > |s| then None
    else if LinkStartsAt(s, from) then Some(from)
    else FindLink(s, from + 1)
  }

  /** What is found is a match, no match starts before it, and nothing found
      means no match is left. */
  lemma {:induction false} FindLinkIsLeftmost(s: string, from: nat)
    requires from <= |s|
    ensures FindLink(s, from).Some? ==> LinkStartsAt(s, FindLink(s, from).value)
    ensures FindLink(s, from).Some? ==> forall p :: from <= p < FindLink(s, from).value ==> !LinkStartsAt(s, p)
    ensures FindLink(s, from).None? ==> forall p :: from <= p <= |s| ==> !LinkStartsAt(s, p)
    decreases |s| - from
  {
    if from + 3 <= |s| && !LinkStartsAt(s, from) {
      FindLinkIsLeftmost(s, from + 1);
    }
  }

  /** A rule number as the pattern reads it: three digits, then groups of
      `.` and word characters. */
  predicate IsRuleRef(t: string) {
    && |t| >= 3
    && Strings.IsAsciiDigit(t[0]) && Strings.IsAsciiDigit(t[1]) && Strings.IsAsciiDigit(t[2])
    && DotGroups(t, 3, |t|)
  }

  // ---------------------------------------------------------------------------
  // The pieces
  // ---------------------------------------------------------------------------

  /** The next match at or after `from`, as the span it covers. */
  function NextLink(s: string, from: nat): (r: Option<(nat, nat)>)
    requires from <= |s|
    ensures r.Some? ==> from <= r.value.0 && r.value.0 + 3 <= r.value.1 <= |s|
  {
    match FindLink(s, from)
    case None => None
    case Some(p) => Some((p, LinkEnd(s, p + 3)))
  }

  /** The pieces of `s` from `from` on: the text up to the next match, the
      match, and so on, ending with the text after the last match. */
  function Pieces(s: string, from: nat): seq<Piece>
    requires from <= |s|
    decreases |s| - from
  {
    match NextLink(s, from)
    case None => [Literal(s[from..])]
    case Some((p, e)) => [Literal(s[from..p]), Link(s[p..e])] + Pieces(s, e)
  }

  lemma PiecesStep(s: string, from: nat, p: nat, e: nat)
    requires from <= |s| && FindLink(s, from) == Some(p) && e == LinkEnd(s, p + 3)
    ensures p <= e <= |s|
    ensures Pieces(s, from) == [Literal(s[from..p]), Link(s[p..e])] + Pieces(s, e)
  {
  }

  lemma PiecesLast(s: string, from: nat)
    requires from <= |s| && FindLink(s, from).None?
    ensures Pieces(s, from) == [Literal(s[from..])]
  {
  }

  /** `RuleTextWithLinks` building its annotated string. */
  method SplitLinks(text: string) returns (pieces: seq<Piece>)
    ensures pieces == Pieces(StripStars(text), 0)
  {
    var cleanText := StripStars(text);
    var lastIndex := 0;
    pieces := [];
    var next := FindLink(cleanText, lastIndex);
    while next.Some?
      invariant 0 <= lastIndex <= |cleanText|
      invariant next == FindLink(cleanText, lastIndex)
      invariant Pieces(cleanText, 0) == pieces + Pieces(cleanText, lastIndex)
      decreases |cleanText| - lastIndex
    {
      var startIndex := next.value;
      var endIndex := LinkEnd(cleanText, startIndex + 3);
      PiecesDone(cleanText, lastIndex, startIndex, endIndex, pieces);
      pieces := pieces + [Literal(cleanText[lastIndex..startIndex])];
      pieces := pieces + [Link(cleanText[startIndex..endIndex])];
      lastIndex := endIndex;
      next := FindLink(cleanText, lastIndex);
    }
    PiecesLast(cleanText, lastIndex);
    pieces := pieces + [Literal(cleanText[lastIndex..])];
  }

  /** The loop's invariant carried past one match: what is done so far,
      then the plain text before the match and the match itself. */
  lemma PiecesDone(s: string, from: nat, p: nat, e: nat, done: seq<Piece>)
    requires from <= |s| && FindLink(s, from) == Some(p) && e == LinkEnd(s, p + 3)
    requires Pieces(s, 0) == done + Pieces(s, from)
    ensures p <= e <= |s|
    ensures Pieces(s, 0) == done + [Literal(s[from..p])] + [Link(s[p..e])] + Pieces(s, e)
  {
    PiecesStep(s, from, p, e);
    AppendTwo(done, Literal(s[from..p]), Link(s[p..e]), Pieces(s, e));
  }

  lemma AppendTwo<T>(done: seq<T>, l: T, k: T, rest: seq<T>)
    ensures done + ([l, k] + rest) == done + [l] + [k] + rest
  {
    assert [l, k] + rest == [l] + [k] + rest;
  }

  // ---------------------------------------------------------------------------
  // What the pieces are
  // ---------------------------------------------------------------------------

  /** Plain and link pieces alternate, starting and ending with plain text. */
  predicate Alternating(ps: seq<Piece>) {
    |ps| % 2 == 1 && forall i :: 0 <= i < |ps| ==> (ps[i].Literal? <==> i % 2 == 0)
  }

  /** Put back together, the pieces are the text they were cut from. */
  lemma {:induction false} PiecesRebuildText(s: string, from: nat)
    requires from <= |s|
    ensures Concat(Pieces(s, from)) == s[from..]
    decreases |s| - from
  {
    if FindLink(s, from).None? {
      PiecesLast(s, from);
      ConcatOne(Literal(s[from..]));
    } else {
      var p := FindLink(s, from).value;
      var e := LinkEnd(s, p + 3);
      PiecesStep(s, from, p, e);
      PiecesRebuildText(s, e);
      ConcatTwo(Literal(s[from..p]), Link(s[p..e]), Pieces(s, e));
      SlicesJoin(s, from, p, e);
    }
  }

  lemma ConcatOne(a: Piece)
    ensures Concat([a]) == PieceText(a)
  {
    assert Concat([a]) == PieceText(a) + Concat([]);
  }

  lemma SlicesJoin<T>(s: seq<T>, i: nat, j: nat, k: nat)
    requires i <= j <= k <= |s|
    ensures s[i..] == s[i..j] + s[j..k] + s[k..]
  {
  }

  lemma ConcatTwo(a: Piece, b: Piece, rest: seq<Piece>)
    ensures Concat([a, b] + rest) == PieceText(a) + PieceText(b) + Concat(rest)
  {
    var ps, qs := [a, b] + rest, [b] + rest;
    assert ps[0] == a && ps[1..] == qs;
    assert qs[0] == b && qs[1..] == rest;
    assert Concat(qs) == PieceText(b) + Concat(rest);
  }

  /** Plain and link pieces alternate, starting and ending with plain text. */
  lemma {:induction false} PiecesAlternate(s: string, from: nat)
    requires from <= |s|
    ensures Alternating(Pieces(s, from))
    decreases |s| - from
  {
    match NextLink(s, from)
    case None =>
    case Some((p, e)) =>
      var rest := Pieces(s, e);
      PiecesAlternate(s, e);
      var ps := [Literal(s[from..p]), Link(s[p..e])] + rest;
      forall i | 0 <= i < |ps| ensures (ps[i].Literal? <==> i % 2 == 0) {
        if i >= 2 {
          assert ps[i] == rest[i - 2];
        }
      }
  }

  /** Where piece `i` begins in the text. */
  function StartOf(ps: seq<Piece>, i: nat): nat
    requires i <= |ps|
  {
    |Concat(ps[..i])|
  }

  /** No match starts in `[lo, hi)`. */
  predicate NoLinkIn(s: string, lo: nat, hi: nat) {
    forall q :: lo <= q < hi ==> !LinkStartsAt(s, q)
  }

  /** A match starts at `at` and covers exactly `t`. */
  predicate IsLinkAt(s: string, at: nat, t: string) {
    LinkStartsAt(s, at) && t == s[at..LinkEnd(s, at + 3)]
  }

  /** A piece standing at `at` in the text is a match of the pattern (a link)
      or a stretch where none starts (a plain piece). */
  predicate PieceFits(s: string, piece: Piece, at: nat) {
    match piece
    case Literal(t) => NoLinkIn(s, at, at + |t|)
    case Link(t) => IsLinkAt(s, at, t)
  }

  /** With no match left, the one plain piece holds no match start. */
  lemma LastPieceFits(s: string, from: nat)
    requires from <= |s| && FindLink(s, from).None?
    ensures PieceFits(s, Literal(s[from..]), from)
  {
    FindLinkIsLeftmost(s, from);
  }

  /** Before the next match, the plain piece holds no match start and the
      link piece is that match. */
  lemma FirstPiecesFit(s: string, from: nat, p: nat)
    requires from <= |s| && FindLink(s, from) == Some(p)
    ensures PieceFits(s, Literal(s[from..p]), from)
    ensures PieceFits(s, Link(s[p..LinkEnd(s, p + 3)]), p)
  {
    FindLinkIsLeftmost(s, from);
  }

  /** The first two pieces of `[a, b] + rest` stand at `from` and right
      after `a`. */
  /** Each piece fits where it stands, the first at `at` and each next one
      right after the one before. */
  predicate AllFit(s: string, ps: seq<Piece>, at: nat)
    decreases |ps|
  {
    ps == [] || (PieceFits(s, ps[0], at) && AllFit(s, ps[1..], at + |PieceText(ps[0])|))
  }

  /** The pieces from `from` on all fit, one after the other. */
  lemma {:induction false} PiecesFit(s: string, from: nat)
    requires from <= |s|
    ensures AllFit(s, Pieces(s, from), from)
    decreases |s| - from
  {
    if FindLink(s, from).None? {
      PiecesFitLast(s, from);
    } else {
      var p := FindLink(s, from).value;
      var e := LinkEnd(s, p + 3);
      PiecesFit(s, e);
      PiecesFitStep(s, from, p, e);
    }
  }

  lemma PiecesFitLast(s: string, from: nat)
    requires from <= |s| && FindLink(s, from).None?
    ensures AllFit(s, Pieces(s, from), from)
  {
    PiecesLast(s, from);
    LastPieceFits(s, from);
    var ps := Pieces(s, from);
    assert ps[1..] == [];
    AllFitCons(s, ps, Literal(s[from..]), [], from, |s|);
  }

  lemma PiecesFitStep(s: string, from: nat, p: nat, e: nat)
    requires from <= |s| && FindLink(s, from) == Some(p) && e == LinkEnd(s, p + 3)
    requires AllFit(s, Pieces(s, e), e)
    ensures AllFit(s, Pieces(s, from), from)
  {
    PiecesStep(s, from, p, e);
    FirstPiecesFit(s, from, p);
    var ps := Pieces(s, from);
    assert ps[0] == Literal(s[from..p]) && ps[1] == Link(s[p..e]) && ps[2..] == Pieces(s, e);
    AllFitTwo(s, ps, from, p, e);
  }


  /** Two pieces that fit one after the other, followed by pieces that all
      fit right after them, all fit. */
  lemma {:induction false} AllFitTwo(s: string, ps: seq<Piece>, at: nat, mid: nat, end: nat)
    requires |ps| >= 2 && mid == at + |PieceText(ps[0])| && end == mid + |PieceText(ps[1])|
    requires PieceFits(s, ps[0], at) && PieceFits(s, ps[1], mid) && AllFit(s, ps[2..], end)
    ensures AllFit(s, ps, at)
  {
    assert ps[1..][1..] == ps[2..];
    assert AllFit(s, ps[1..], mid);
  }

  /** A piece that fits, followed by pieces that all fit right after it. */
  lemma {:induction false} AllFitCons(s: string, ps: seq<Piece>, a: Piece, tail: seq<Piece>, at: nat, next: nat)
    requires ps != [] && ps[0] == a && ps[1..] == tail && next == at + |PieceText(a)|
    requires PieceFits(s, a, at) && AllFit(s, tail, next)
    ensures AllFit(s, ps, at)
  {
  }

  /** In a run of pieces that all fit from the start of the text, every piece
      fits where `StartOf` puts it. */
  lemma AllFitAll(s: string, ps: seq<Piece>)
    requires AllFit(s, ps, 0)
    ensures forall i :: 0 <= i < |ps| ==> PieceFits(s, ps[i], StartOf(ps, i))
  {
    forall i | 0 <= i < |ps| ensures PieceFits(s, ps[i], StartOf(ps, i)) {
      AllFitAt(s, ps, 0, i);
    }
  }

  /** In a run of pieces that all fit, piece `i` fits where `StartOf` puts it. */
  lemma {:induction false} AllFitAt(s: string, ps: seq<Piece>, at: nat, i: nat)
    requires AllFit(s, ps, at) && i < |ps|
    ensures PieceFits(s, ps[i], at + StartOf(ps, i))
    decreases i
  {
    if i == 0 {
      assert ps[..0] == [];
    } else {
      AllFitAt(s, ps[1..], at + |PieceText(ps[0])|, i - 1);
      assert ps[..i][1..] == ps[1..][..i - 1];
      assert ps[1..][i - 1] == ps[i];
    }
  }

  /** Every link piece is a match of the pattern exactly where it stands in
      the text, and no match starts inside a plain piece: the matches are
      found leftmost first and do not overlap. */
  lemma PiecesAreTheMatches(s: string)
    ensures forall i :: 0 <= i < |Pieces(s, 0)| ==> PieceFits(s, Pieces(s, 0)[i], StartOf(Pieces(s, 0), i))
  {
    PiecesFit(s, 0);
    AllFitAll(s, Pieces(s, 0));
  }

  /** A link's text is a rule number, and the text around it is a word
      boundary on both sides with no further group after it. */
  lemma LinkIsRuleRef(s: string, p: nat)
    requires LinkStartsAt(s, p)
    ensures var e := LinkEnd(s, p + 3);
      && IsRuleRef(s[p..e])
      && (p == 0 || !IsWord(s[p - 1]))
      && (e == |s| || !IsWord(s[e]))
      && !GroupAt(s, e)
  {
    var e := LinkEnd(s, p + 3);
    LinkEndShape(s, p + 3);
    var t := s[p..e];
    assert forall k :: 3 <= k < |t| ==> t[k] == s[p + k];
  }
}
