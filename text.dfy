/**
 * String operations the components rely on: `toLowerCase`, `includes`, ordering of ISO dates,
 * `join('\n')` (with its inverse, splitting on the separator) and the reading of the text held by
 * an `<input type="number">` (`parseFloat`).
 */
module Text {
  import opened Wrappers

  function LowerChar(c: char): char
  {
    if 'A' <= c <= 'Z' then (c as int + 32) as char else c
  }

  /** `toLowerCase`, on the ASCII letters. */
  function Lower(s: string): (r: string)
    ensures |r| == |s|
  {
    seq(|s|, i requires 0 <= i < |s| => LowerChar(s[i]))
  }

  /** `hay.includes(needle)`: `needle` occurs in `hay` starting at some position. */
  predicate Contains(hay: string, needle: string)
  {
    needle <= hay || (hay != [] && Contains(hay[1..], needle))
  }

  /** `needle` occurs in `hay` at position `i`. */
  predicate OccursAt(hay: string, needle: string, i: int)
  {
    0 <= i && i + |needle| <= |hay| && hay[i..i + |needle|] == needle
  }

  /** A window of `hay[1..]` is the window of `hay` one position further on. */
  lemma TailWindow(hay: string, i: nat, n: nat)
    requires hay != [] && i + n <= |hay| - 1
    ensures hay[1..][i..i + n] == hay[i + 1..i + 1 + n]
  {
  }

  /** `Contains` agrees with the direct definition: `needle` occurs at some position of `hay`. */
  lemma {:induction false} ContainsIffOccurs(hay: string, needle: string)
    ensures Contains(hay, needle) <==> exists i :: OccursAt(hay, needle, i)
  {
    if needle <= hay {
      assert OccursAt(hay, needle, 0);
    } else if hay == [] {
    } else {
      ContainsIffOccurs(hay[1..], needle);
      if exists i :: OccursAt(hay, needle, i) {
        var i :| OccursAt(hay, needle, i);
        assert i != 0;
        TailWindow(hay, i - 1, |needle|);
        assert OccursAt(hay[1..], needle, i - 1);
      }
      if Contains(hay[1..], needle) {
        var i :| OccursAt(hay[1..], needle, i);
        TailWindow(hay, i, |needle|);
        assert OccursAt(hay, needle, i + 1);
      }
    }
  }

  /** Code-unit lexicographic order; on well-formed `YYYY-MM-DD` dates it is chronological order. */
  predicate LexLess(a: string, b: string)
  {
    if a == [] then b != []
    else if b == [] then false
    else if a[0] != b[0] then a[0] < b[0]
    else LexLess(a[1..], b[1..])
  }

  lemma {:induction false} LexIrreflexive(a: string)
    ensures !LexLess(a, a)
  {
    if a != [] { LexIrreflexive(a[1..]); }
  }

  lemma {:induction false} LexTrichotomy(a: string, b: string)
    ensures a == b || LexLess(a, b) || LexLess(b, a)
  {
    if a != [] && b != [] && a[0] == b[0] {
      LexTrichotomy(a[1..], b[1..]);
      if a[1..] == b[1..] {
        assert a == [a[0]] + a[1..] && b == [b[0]] + b[1..];
      }
    }
  }

  lemma {:induction false} LexAsymmetric(a: string, b: string)
    ensures !(LexLess(a, b) && LexLess(b, a))
  {
    if a != [] && b != [] && a[0] == b[0] {
      LexAsymmetric(a[1..], b[1..]);
    }
  }

  lemma {:induction false} LexTransitive(a: string, b: string, c: string)
    requires LexLess(a, b) && LexLess(b, c)
    ensures LexLess(a, c)
  {
    if a != [] && a[0] == b[0] && b[0] == c[0] {
      LexTransitive(a[1..], b[1..], c[1..]);
    }
  }

  /** The sign of `new Date(a).getTime() - new Date(b).getTime()` for well-formed ISO dates. */
  function DateCompare(a: string, b: string): int
  {
    if a == b then 0 else if LexLess(a, b) then -1 else 1
  }

  /** `lines.join([sep])`: no separator after the last line. */
  function Join(lines: seq<string>, sep: char): string
  {
    if lines == [] then ""
    else if |lines| == 1 then lines[0]
    else lines[0] + [sep] + Join(lines[1..], sep)
  }

  /** `s.split(sep)`: the pieces between separators; always at least one piece. */
  function Split(s: string, sep: char): (r: seq<string>)
    ensures |r| >= 1
  {
    if s == [] then [""]
    else
      var rest := Split(s[1..], sep);
      if s[0] == sep then [""] + rest else [[s[0]] + rest[0]] + rest[1..]
  }

  lemma {:induction false} SplitWithoutSeparator(a: string, sep: char)
    requires sep !in a
    ensures Split(a, sep) == [a]
  {
    if a != [] {
      SplitWithoutSeparator(a[1..], sep);
      assert a == [a[0]] + a[1..];
    }
  }

  lemma {:induction false} SplitAtFirstSeparator(a: string, b: string, sep: char)
    requires sep !in a
    ensures Split(a + [sep] + b, sep) == [a] + Split(b, sep)
  {
    var s := a + [sep] + b;
    if a == [] {
      assert s == [sep] + b;
      assert s[1..] == b;
    } else {
      assert s[0] == a[0];
      assert s[1..] == a[1..] + [sep] + b;
      SplitAtFirstSeparator(a[1..], b, sep);
      assert a == [a[0]] + a[1..];
    }
  }

  /** Splitting the joined lines on the separator gives the lines back, when no line holds it. */
  lemma {:induction false} SplitJoin(lines: seq<string>, sep: char)
    requires |lines| >= 1
    requires forall i :: 0 <= i < |lines| ==> sep !in lines[i]
    ensures Split(Join(lines, sep), sep) == lines
  {
    if |lines| == 1 {
      SplitWithoutSeparator(lines[0], sep);
    } else {
      SplitJoin(lines[1..], sep);
      SplitAtFirstSeparator(lines[0], Join(lines[1..], sep), sep);
      assert lines == [lines[0]] + lines[1..];
    }
  }

  // Reading a number input's text.

  predicate IsDigit(c: char) { '0' <= c <= '9' }

  predicate IsDigits(s: string)
  {
    |s| > 0 && forall i :: 0 <= i < |s| ==> IsDigit(s[i])
  }

  function DigitsValue(s: string): nat
    requires forall i :: 0 <= i < |s| ==> IsDigit(s[i])
  {
    if s == [] then 0
    else
      assert IsDigit(s[|s| - 1]);
      DigitsValue(s[..|s| - 1]) * 10 + (s[|s| - 1] as int - '0' as int)
  }

  function Pow10(n: nat): (p: nat)
    ensures p >= 1
  {
    if n == 0 then 1 else 10 * Pow10(n - 1)
  }

  /** The position of the first '.', or |s| when there is none. */
  function DotIndex(s: string): (k: nat)
    ensures k <= |s| && (k < |s| ==> s[k] == '.')
    ensures forall i :: 0 <= i < k ==> s[i] != '.'
  {
    if s == [] then 0
    else if s[0] == '.' then 0
    else 1 + DotIndex(s[1..])
  }

  /** The position of the first 'e' or 'E', or |s| when there is none. */
  predicate IsExpMark(c: char) { c == 'e' || c == 'E' }

  function ExpIndex(s: string): (k: nat)
    ensures k <= |s| && (k < |s| ==> IsExpMark(s[k]))
    ensures forall i :: 0 <= i < k ==> !IsExpMark(s[i])
  {
    if s == [] then 0
    else if IsExpMark(s[0]) then 0
    else 1 + ExpIndex(s[1..])
  }

  /** The significand: one or both of a run of digits and a '.' followed by a run of digits. */
  predicate IsMantissaText(t: string)
  {
    var k := DotIndex(t);
    if k == |t| then IsDigits(t)
    else (k == 0 || IsDigits(t[..k])) && IsDigits(t[k + 1..])
  }

  /** What follows 'e' or 'E': an optional '+' or '-', then a run of digits. */
  predicate IsExponentText(t: string)
  {
    IsDigits(t) || (|t| > 0 && (t[0] == '+' || t[0] == '-') && IsDigits(t[1..]))
  }

  /**
   * A valid floating-point number of HTML without its leading '-': a significand, optionally
   * followed by 'e' or 'E' and an exponent.
   */
  predicate IsUnsignedNumberText(t: string)
  {
    var k := ExpIndex(t);
    IsMantissaText(t[..k]) && (k == |t| || IsExponentText(t[k + 1..]))
  }

  /** The text a number input reports as its value: an optional '-', then an unsigned number. */
  predicate IsNumberText(s: string)
  {
    if |s| > 0 && s[0] == '-' then IsUnsignedNumberText(s[1..]) else IsUnsignedNumberText(s)
  }

  function MantissaValue(t: string): (v: real)
    requires IsMantissaText(t)
    ensures v >= 0.0
  {
    var k := DotIndex(t);
    if k == |t| then DigitsValue(t) as real
    else
      var whole := if k == 0 then 0 else DigitsValue(t[..k]);
      var frac := t[k + 1..];
      whole as real + DigitsValue(frac) as real / Pow10(|frac|) as real
  }

  function ExponentValue(t: string): int
    requires IsExponentText(t)
  {
    if IsDigits(t) then DigitsValue(t)
    else if t[0] == '-' then -(DigitsValue(t[1..]) as int)
    else DigitsValue(t[1..])
  }

  /** `v` times 10 to the power `e`, for an exponent of either sign, one factor of ten at a time. */
  function ScaleBy(v: real, e: int): (r: real)
    ensures v >= 0.0 ==> r >= 0.0
    decreases if e >= 0 then e else -e
  {
    if e == 0 then v
    else if e > 0 then 10.0 * ScaleBy(v, e - 1)
    else ScaleBy(v, e + 1) / 10.0
  }

  /** For a non-negative exponent, `ScaleBy` multiplies by that power of ten. */
  lemma {:induction false} ScaleUp(v: real, e: nat)
    ensures ScaleBy(v, e) == v * Pow10(e) as real
  {
    if e > 0 {
      ScaleUp(v, e - 1);
      var p := Pow10(e - 1) as real;
      assert Pow10(e) as real == 10.0 * p;
      assert v * (10.0 * p) == 10.0 * (v * p);
    }
  }

  /** For a negative exponent, `ScaleBy` divides by the matching power of ten. */
  lemma {:induction false} ScaleDown(v: real, e: nat)
    ensures ScaleBy(v, -(e as int)) == v / Pow10(e) as real
  {
    if e > 0 {
      ScaleDown(v, e - 1);
      var p := Pow10(e - 1) as real;
      assert p >= 1.0;
      assert Pow10(e) as real == 10.0 * p;
      assert (v / p) / 10.0 == v / (10.0 * p);
    }
  }

  /** The exponent `t` carries: 0 when there is none. */
  function ExponentOf(t: string): int
    requires IsUnsignedNumberText(t)
  {
    var k := ExpIndex(t);
    if k == |t| then 0 else ExponentValue(t[k + 1..])
  }

  function UnsignedValue(t: string): (v: real)
    requires IsUnsignedNumberText(t)
    ensures v >= 0.0
  {
    ScaleBy(MantissaValue(t[..ExpIndex(t)]), ExponentOf(t))
  }

  /**
   * `parseFloat` on the text of a number input: the number it spells, or None where
   * `parseFloat` gives NaN. A leading '-' negates; nothing else about the sign is checked.
   */
  function ParseNumber(s: string): (r: Option<real>)
    ensures r.Some? <==> IsNumberText(s)
    ensures r.Some? && |s| > 0 && s[0] == '-' ==> r.value <= 0.0
    ensures r.Some? && !(|s| > 0 && s[0] == '-') ==> r.value >= 0.0
  {
    if !IsNumberText(s) then None
    else if |s| > 0 && s[0] == '-' then Some(-UnsignedValue(s[1..]))
    else Some(UnsignedValue(s))
  }

  /**
   * The value an `<input type="number">` reports: the typed text when it is a valid number,
   * and the empty text otherwise.
   */
  function SanitizeNumberInput(text: string): (r: string)
    ensures r == "" || ParseNumber(r).Some?
  {
    if IsNumberText(text) then text else ""
  }

  /** The character of a decimal digit. */
  function DigitChar(d: nat): (c: char)
    requires d < 10
    ensures IsDigit(c) && c as int - '0' as int == d
  {
    ('0' as int + d) as char
  }

  /** The decimal text of a natural number, without leading zeros: a small printer for `ParseNumber`. */
  function NatText(n: nat): (s: string)
    ensures IsDigits(s)
  {
    if n < 10 then [DigitChar(n)] else NatText(n / 10) + [DigitChar(n % 10)]
  }

  lemma {:induction false} NatTextValue(n: nat)
    ensures DigitsValue(NatText(n)) == n
  {
    if n >= 10 {
      var s := NatText(n);
      NatTextValue(n / 10);
      assert s[..|s| - 1] == NatText(n / 10);
    }
  }

  /** A run of digits holds neither a '.' nor an exponent mark, so it reads as its decimal value. */
  lemma DigitsParse(s: string)
    requires IsDigits(s)
    ensures ExpIndex(s) == |s| && DotIndex(s) == |s|
    ensures IsNumberText(s) && ParseNumber(s) == Some(DigitsValue(s) as real)
  {
    assert IsDigit(s[0]);
    assert s[..|s|] == s;
  }

  /** Printing a natural number and reading it back gives the number. */
  lemma ParseNatText(n: nat)
    ensures ParseNumber(NatText(n)) == Some(n as real)
  {
    NatTextValue(n);
    DigitsParse(NatText(n));
  }

  /** An unsigned number starts with a digit or a '.', never with a sign. */
  lemma UnsignedStart(t: string)
    requires IsUnsignedNumberText(t)
    ensures |t| > 0 && (IsDigit(t[0]) || t[0] == '.')
  {
    var m := t[..ExpIndex(t)];
    var k := DotIndex(m);
    if k != |m| && k != 0 {
      assert IsDigit(m[..k][0]);
    }
    assert IsDigit(m[0]) || m[0] == '.';
  }

  /** A leading '-' reads as the negation of the rest. */
  lemma ParseNegated(t: string)
    requires IsUnsignedNumberText(t)
    ensures ParseNumber(t).Some?
    ensures ParseNumber("-" + t) == Some(-ParseNumber(t).value)
  {
    UnsignedStart(t);
    assert ("-" + t)[1..] == t;
  }

  /** A significand holds no exponent mark. */
  lemma MantissaHasNoExpMark(m: string)
    requires IsMantissaText(m)
    ensures forall i :: 0 <= i < |m| ==> !IsExpMark(m[i])
  {
    var k := DotIndex(m);
    forall i | 0 <= i < |m| ensures !IsExpMark(m[i]) {
      if k == |m| {
        assert IsDigit(m[i]);
      } else if i < k {
        assert IsDigit(m[..k][i]);
      } else if i > k {
        assert IsDigit(m[k + 1..][i - k - 1]);
      }
    }
  }

  /** `m` followed by 'e' and an exponent text: the exponent mark is the one after `m`. */
  lemma ExponentSplit(m: string, mark: char, x: string)
    requires IsMantissaText(m) && IsExpMark(mark)
    ensures var s := m + [mark] + x; ExpIndex(s) == |m| && s[..|m|] == m && s[|m| + 1..] == x
  {
    var s := m + [mark] + x;
    MantissaHasNoExpMark(m);
    assert s[|m|] == mark;
    assert s[..|m|] == m;
    assert s[|m| + 1..] == x;
  }

  /** An unsigned number reads as its value. */
  lemma UnsignedParse(t: string)
    requires IsUnsignedNumberText(t)
    ensures ParseNumber(t) == Some(UnsignedValue(t))
  {
    UnsignedStart(t);
  }

  lemma ExponentWellFormed(m: string, mark: char, x: string)
    requires IsMantissaText(m) && IsExpMark(mark) && IsExponentText(x)
    ensures var s := m + [mark] + x;
      IsUnsignedNumberText(s) && ExpIndex(s) == |m| < |s| && s[..|m|] == m && s[|m| + 1..] == x
  {
    ExponentSplit(m, mark, x);
  }

  lemma ExponentUnsigned(m: string, mark: char, x: string)
    requires IsMantissaText(m) && IsExpMark(mark) && IsExponentText(x)
    ensures IsUnsignedNumberText(m + [mark] + x)
    ensures UnsignedValue(m + [mark] + x) == ScaleBy(MantissaValue(m), ExponentValue(x))
  {
    ExponentWellFormed(m, mark, x);
  }

  /** A significand, an exponent mark and an exponent read as the significand times 10 to the exponent. */
  lemma ParseExponent(m: string, mark: char, x: string)
    requires IsMantissaText(m) && IsExpMark(mark) && IsExponentText(x)
    ensures ParseNumber(m) == Some(MantissaValue(m))
    ensures ParseNumber(m + [mark] + x) == Some(ScaleBy(MantissaValue(m), ExponentValue(x)))
  {
    MantissaParse(m);
    ExponentUnsigned(m, mark, x);
    UnsignedParse(m + [mark] + x);
  }

  /** The exponent texts `k`, `+k` and `-k` stand for k, k and -k. */
  lemma ExponentOfNat(k: nat)
    ensures IsExponentText(NatText(k)) && ExponentValue(NatText(k)) == k
    ensures IsExponentText("+" + NatText(k)) && ExponentValue("+" + NatText(k)) == k
    ensures IsExponentText("-" + NatText(k)) && ExponentValue("-" + NatText(k)) == -(k as int)
  {
    NatTextValue(k);
    var plus, minus := "+" + NatText(k), "-" + NatText(k);
    assert plus[1..] == NatText(k) && !IsDigit(plus[0]);
    assert minus[1..] == NatText(k) && !IsDigit(minus[0]);
  }

  /**
   * `1e+k` reads as 10 to the k, for every k. This is how `toString()` prints a large whole
   * limit (`1e+21`), so such text is number text and the limit editor can start from it.
   */
  lemma PowerOfTenText(k: nat)
    ensures IsNumberText("1e+" + NatText(k))
    ensures ParseNumber("1e+" + NatText(k)) == Some(Pow10(k) as real)
  {
    var x := "+" + NatText(k);
    var s := "1e+" + NatText(k);
    assert IsDigits("1") && DotIndex("1") == 1;
    assert IsMantissaText("1") && MantissaValue("1") == 1.0;
    ExponentOfNat(k);
    assert s == "1" + ['e'] + x;
    ParseExponent("1", 'e', x);
    var p := ScaleBy(MantissaValue("1"), ExponentValue(x));
    assert ParseNumber(s) == Some(p);
    ScaleUp(1.0, k);
    assert p == ScaleBy(1.0, k) == Pow10(k) as real;
  }

  /** A significand on its own is a number text and reads as its value. */
  lemma MantissaParse(m: string)
    requires IsMantissaText(m)
    ensures IsUnsignedNumberText(m) && ParseNumber(m) == Some(MantissaValue(m))
  {
    MantissaHasNoExpMark(m);
    assert m[..|m|] == m;
    assert ExpIndex(m) == |m|;
    UnsignedStart(m);
  }

  /** The empty text reads as NaN. */
  lemma EmptyIsNotANumber()
    ensures ParseNumber("") == None
  {
  }

  /** Exponent notation is read: `1e3` is 1000. */
  lemma ExponentTextParses()
    ensures ParseNumber("1e3") == Some(1000.0)
  {
    DigitsParse("1");
    ParseExponent("1", 'e', "3");
    assert "1" + ['e'] + "3" == "1e3";
    assert ExponentValue("3") == 3;
    assert ScaleBy(1.0, 3) == 1000.0;
  }

  /** `2.5` is a significand worth 2.5. */
  lemma TwoPointFive()
    ensures IsMantissaText("2.5") && MantissaValue("2.5") == 2.5
  {
    var m := "2.5";
    assert DotIndex(m) == 1 && m[..1] == "2" && m[2..] == "5";
  }

  /** A negative exponent divides: `2.5E-1` is 0.25. */
  lemma NegativeExponentTextParses()
    ensures ParseNumber("2.5E-1") == Some(0.25)
  {
    TwoPointFive();
    ParseExponent("2.5", 'E', "-1");
    assert "-1"[1..] == "1";
    assert ExponentValue("-1") == -1;
    assert ScaleBy(2.5, -1) == 0.25;
    assert "2.5" + ['E'] + "-1" == "2.5E-1";
  }

  /** A negative number reads as itself: the sign is carried through, not rejected. */
  lemma NegativeTextParses()
    ensures ParseNumber("-12.5") == Some(-12.5)
  {
    var m := "12.5";
    assert DotIndex(m) == 2 && m[..2] == "12" && m[3..] == "5";
    assert "12"[..1] == "1";
    assert DigitsValue("12") == 12;
    assert MantissaValue(m) == 12.5;
    MantissaParse(m);
    ParseNegated(m);
    assert "-" + m == "-12.5";
  }

}
