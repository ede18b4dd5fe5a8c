/** `compareVersionStrings`, the order of the penalties document's keys: the
    `.`-separated segments read as 32-bit integers (0 when unreadable or
    missing), compared from the left. */
module VersionOrder {
  import opened Wrappers
  import Strings
  import Sorting

  // ---------------------------------------------------------------------------
  // String.toIntOrNull()
  // ---------------------------------------------------------------------------

  const IntMin: int := -0x8000_0000
  const IntMax: int := 0x7fff_ffff

  predicate AllDigits(s: string) {
    forall i :: 0 <= i < |s| ==> Strings.IsAsciiDigit(s[i])
  }

  function DigitValue(c: char): nat
    requires Strings.IsAsciiDigit(c)
  {
    (c as int) - ('0' as int)
  }

  /** The number a run of decimal digits denotes. */
  function DigitsValue(s: string): nat
    requires AllDigits(s)
    decreases |s|
  {
    if s == [] then 0 else DigitsValue(s[..|s| - 1]) * 10 + DigitValue(s[|s| - 1])
  }

  /** `toIntOrNull()`: an optional `+` or `-`, then at least one digit, and a
      value that fits in 32 bits; anything else is `null`. */
  function ParseInt(s: string): (r: Option<int>)
    ensures r.Some? ==> IntMin <= r.value <= IntMax
    ensures r.Some? ==> |s| >= 1
  {
    if |s| == 0 then None
    else if s[0] == '-' || s[0] == '+' then
      if |s| == 1 || !AllDigits(s[1..]) then None
      else
        var v: int := if s[0] == '-' then 0 - DigitsValue(s[1..]) else DigitsValue(s[1..]);
        if IntMin <= v <= IntMax then Some(v) else None
    else if AllDigits(s) && DigitsValue(s) <= IntMax then Some(DigitsValue(s))
    else None
  }

  /** The decimal numeral of `n`, without sign or leading zeros. */
  function Decimal(n: nat): (s: string)
    ensures |s| >= 1 && AllDigits(s)
    decreases n
  {
    (if n < 10 then "" else Decimal(n / 10)) + [('0' as int + n % 10) as char]
  }

  lemma DigitsValueSnoc(t: string, c: char)
    requires AllDigits(t) && Strings.IsAsciiDigit(c)
    ensures AllDigits(t + [c]) && DigitsValue(t + [c]) == DigitsValue(t) * 10 + DigitValue(c)
  {
    assert (t + [c])[..|t|] == t;
  }

  lemma {:induction false} DecimalValue(n: nat)
    ensures DigitsValue(Decimal(n)) == n
    decreases n
  {
    var q, d := n / 10, n % 10;
    assert n == q * 10 + d && d < 10;
    var last := ('0' as int + d) as char;
    var init := if n < 10 then "" else Decimal(q);
    assert Decimal(n) == init + [last];
    DigitsValueSnoc(init, last);
    assert DigitValue(last) == d;
    if n >= 10 {
      DecimalValue(q);
    } else {
      assert q == 0;
    }
    assert DigitsValue(init) == q;
  }

  /** Every 32-bit value written in decimal reads back as itself. */
  lemma ParseIntDecimal(n: int)
    requires IntMin <= n <= IntMax
    ensures n >= 0 ==> ParseInt(Decimal(n)) == Some(n)
    ensures n < 0 ==> ParseInt("-" + Decimal(-n)) == Some(n)
  {
    if n >= 0 {
      DecimalValue(n);
    } else {
      DecimalValue(-n);
      assert ("-" + Decimal(-n))[1..] == Decimal(-n);
    }
  }

  // ---------------------------------------------------------------------------
  // compareVersionStrings
  // ---------------------------------------------------------------------------

  /** `split('.').map { it.toIntOrNull() ?: 0 }` */
  function Segments(v: string): (r: seq<int>)
    ensures |r| == |Strings.SplitOn(v, '.')| >= 1
  {
    var parts := Strings.SplitOn(v, '.');
    seq(|parts|, i requires 0 <= i < |parts| => ParseInt(parts[i]).GetOr(0))
  }

  /** `getOrElse(i) { 0 }`: missing trailing segments read as 0. */
  function Segment(xs: seq<int>, i: nat): int {
    if i < |xs| then xs[i] else 0
  }

  function Max(a: nat, b: nat): nat { if a < b then b else a }

  /** The first differing segment from `i` on decides; none differing is 0. */
  function CompareFrom(xs: seq<int>, ys: seq<int>, i: nat): (r: int)
    ensures -1 <= r <= 1
    decreases Max(|xs|, |ys|) - i
  {
    if i >= Max(|xs|, |ys|) then 0
    else if Segment(xs, i) != Segment(ys, i) then
      (if Segment(xs, i) < Segment(ys, i) then -1 else 1)
    else CompareFrom(xs, ys, i + 1)
  }

  function Compare(v1: string, v2: string): int {
    CompareFrom(Segments(v1), Segments(v2), 0)
  }

  /** `compareVersionStrings`: the indexed loop with its early return. */
  method CompareVersionStrings(v1: string, v2: string) returns (r: int)
    ensures r == Compare(v1, v2)
  {
    var partsA := Segments(v1);
    var partsB := Segments(v2);
    var length := Max(|partsA|, |partsB|);
    for i := 0 to length
      invariant CompareFrom(partsA, partsB, 0) == CompareFrom(partsA, partsB, i)
    {
      var pA := if i < |partsA| then partsA[i] else 0;
      var pB := if i < |partsB| then partsB[i] else 0;
      if pA != pB {
        return if pA < pB then -1 else 1;
      }
    }
    return 0;
  }

  /** Segments agree at every position from `i` on, reading missing ones as 0. */
  ghost predicate SameFrom(xs: seq<int>, ys: seq<int>, i: nat) {
    forall j :: i <= j ==> Segment(xs, j) == Segment(ys, j)
  }

  /** Two keys compare equal exactly when their segments agree, padding the
      shorter with zeros: "100" and "100.0" are equal. */
  lemma {:induction false} CompareZeroIff(xs: seq<int>, ys: seq<int>, i: nat)
    ensures CompareFrom(xs, ys, i) == 0 <==> SameFrom(xs, ys, i)
    decreases Max(|xs|, |ys|) - i
  {
    if i < Max(|xs|, |ys|) && Segment(xs, i) == Segment(ys, i) {
      CompareZeroIff(xs, ys, i + 1);
      if SameFrom(xs, ys, i + 1) {
        forall j | i <= j ensures Segment(xs, j) == Segment(ys, j) {
          if j > i {
            assert Segment(xs, j) == Segment(ys, j);
          }
        }
      }
    } else if i >= Max(|xs|, |ys|) {
      forall j | i <= j ensures Segment(xs, j) == Segment(ys, j) { }
    }
  }

  /** Swapping the arguments negates the result. */
  lemma {:induction false} CompareFromAntisymmetric(xs: seq<int>, ys: seq<int>, i: nat)
    ensures CompareFrom(xs, ys, i) == -CompareFrom(ys, xs, i)
    decreases Max(|xs|, |ys|) - i
  {
    if i < Max(|xs|, |ys|) && Segment(xs, i) == Segment(ys, i) {
      CompareFromAntisymmetric(xs, ys, i + 1);
    }
  }

  lemma {:induction false} CompareFromReflexive(xs: seq<int>, i: nat)
    ensures CompareFrom(xs, xs, i) == 0
    decreases |xs| - i
  {
    if i < |xs| {
      CompareFromReflexive(xs, i + 1);
    }
  }

  function Max3(a: nat, b: nat, c: nat): nat { Max(Max(a, b), c) }

  /** Not after, then not after, is not after. */
  lemma {:induction false} CompareFromTransitive(xs: seq<int>, ys: seq<int>, zs: seq<int>, i: nat)
    requires CompareFrom(xs, ys, i) <= 0 && CompareFrom(ys, zs, i) <= 0
    ensures CompareFrom(xs, zs, i) <= 0
    decreases Max3(|xs|, |ys|, |zs|) - i
  {
    var a, b, c := Segment(xs, i), Segment(ys, i), Segment(zs, i);
    if i >= Max3(|xs|, |ys|, |zs|) {
    } else if a == b && b == c {
      CompareFromTransitive(xs, ys, zs, i + 1);
    }
  }

  /** The comparator read as "not after". */
  predicate VersionLe(a: string, b: string) {
    Compare(a, b) <= 0
  }

  /** It is a total preorder, so sorting by it is well defined. */
  lemma VersionLeIsTotalPreorder()
    ensures Sorting.TotalPreorder(VersionLe)
  {
    forall a, b ensures VersionLe(a, b) || VersionLe(b, a) {
      CompareFromAntisymmetric(Segments(a), Segments(b), 0);
    }
    forall a, b, c | VersionLe(a, b) && VersionLe(b, c) ensures VersionLe(a, c) {
      CompareFromTransitive(Segments(a), Segments(b), Segments(c), 0);
    }
  }

  /** Every key compares equal to itself, and swapping the keys flips the sign. */
  lemma CompareIsConsistent(a: string, b: string)
    ensures Compare(a, a) == 0
    ensures Compare(a, b) == -Compare(b, a)
  {
    CompareFromReflexive(Segments(a), 0);
    CompareFromAntisymmetric(Segments(a), Segments(b), 0);
  }

  lemma SplitsAtDot(a: string, b: string)
    requires '.' !in a && '.' !in b
    ensures Strings.SplitOn(a + "." + b, '.') == [a, b]
    ensures Segments(a + "." + b) == [ParseInt(a).GetOr(0), ParseInt(b).GetOr(0)]
  {
    Strings.SplitOnJoin([a, b], '.');
    assert Strings.Join([a, b], '.') == a + "." + b;
  }

  lemma SmallNumerals()
    ensures ParseInt("0") == Some(0) && ParseInt("2") == Some(2) && ParseInt("9") == Some(9)
    ensures ParseInt("10") == Some(10) && ParseInt("100") == Some(100)
  {
    assert DigitsValue("10") == 10 by { assert "10"[..1] == "1"; }
    assert DigitsValue("100") == 100 by {
      assert "100"[..2] == "10" && "10"[..1] == "1";
    }
  }

  /** "9" sorts before "10": segments compare as numbers, not text. */
  lemma NineBeforeTen()
    ensures Compare("9", "10") < 0
  {
    SmallNumerals();
    Strings.SplitOnFree("9", '.');
    Strings.SplitOnFree("10", '.');
    assert Segments("9") == [9] && Segments("10") == [10];
  }

  /** "100.2" sorts before "100.10". */
  lemma SecondSegmentByNumber()
    ensures Compare("100.2", "100.10") < 0
  {
    SmallNumerals();
    SplitsAtDot("100", "2");
    SplitsAtDot("100", "10");
    assert "100" + "." + "2" == "100.2" && "100" + "." + "10" == "100.10";
    assert CompareFrom([100, 2], [100, 10], 1) == -1;
  }

  /** "100" and "100.0" are level: a missing segment reads as 0. */
  lemma MissingSegmentIsZero()
    ensures Compare("100", "100.0") == 0
  {
    SmallNumerals();
    Strings.SplitOnFree("100", '.');
    SplitsAtDot("100", "0");
    assert "100" + "." + "0" == "100.0";
    assert Segments("100") == [100];
  }
}
