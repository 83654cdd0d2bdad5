/** Numeric and string primitives of the JavaScript runtime that the storefront relies on,
    stated over exact values: `Math.round`, `Number.prototype.toFixed`, `startsWith`,
    `includes`, ASCII `toLowerCase`, and decimal digit strings. */
module Text {
  import opened Wrappers

  /** `Math.round`: the nearest integer, halves rounded towards +infinity. */
  function RoundHalfUp(y: real): (r: int)
    ensures r as real - 1.0 / 2.0 <= y < r as real + 1.0 / 2.0
  {
    (y + 1.0 / 2.0).Floor
  }

  /** Any two integers within half a unit below and above `y` coincide: rounding is determined. */
  lemma RoundHalfUpUnique(y: real, k: int)
    requires k as real - 1.0 / 2.0 <= y < k as real + 1.0 / 2.0
    ensures RoundHalfUp(y) == k
  {
  }

  /** Rounding is monotone. */
  lemma RoundHalfUpMonotone(y: real, z: real)
    requires y <= z
    ensures RoundHalfUp(y) <= RoundHalfUp(z)
  {
  }

  function Pow10(f: nat): (r: nat)
    ensures r >= 1
  {
    if f == 0 then 1 else 10 * Pow10(f - 1)
  }

  predicate IsDigit(c: char) { '0' <= c <= '9' }

  predicate AllDigits(s: string) { forall i :: 0 <= i < |s| ==> IsDigit(s[i]) }

  function DigitChar(d: nat): (c: char)
    requires d < 10
    ensures IsDigit(c) && c as int - '0' as int == d
  {
    (d + '0' as int) as char
  }

  /** The number a string of decimal digits denotes. */
  function DigitsValue(s: string): (v: nat)
    requires AllDigits(s)
  {
    if s == [] then 0
    else 10 * DigitsValue(s[..|s| - 1]) + (s[|s| - 1] as int - '0' as int)
  }

  /** The decimal notation of `n`: digits only, no leading zero. */
  function NatToString(n: nat): (s: string)
    ensures |s| >= 1 && AllDigits(s)
    ensures (s[0] == '0') == (n == 0)
    ensures n == 0 ==> s == "0"
  {
    if n < 10 then [DigitChar(n)] else NatToString(n / 10) + [DigitChar(n % 10)]
  }

  /** Reading back the decimal notation of `n` gives `n`. */
  lemma {:induction false} NatToStringValue(n: nat)
    ensures DigitsValue(NatToString(n)) == n
  {
    if n >= 10 {
      var s := NatToString(n);
      assert s[..|s| - 1] == NatToString(n / 10);
      NatToStringValue(n / 10);
    }
  }

  /** `Number.prototype.toString()` of an integer: its decimal digits, after a minus sign
      when it is negative. */
  function IntToString(i: int): (s: string)
    ensures |s| >= 1
    ensures i >= 0 ==> (s[0] == '0') == (i == 0)
    ensures i < 0 ==> |s| >= 2 && s[1] != '0'
    ensures i >= 0 ==> AllDigits(s) && DigitsValue(s) == i
    ensures i < 0 ==> |s| >= 2 && s[0] == '-' && AllDigits(s[1..]) && DigitsValue(s[1..]) == -i
  {
    if i < 0 then
      NatToStringValue(-i);
      assert ("-" + NatToString(-i))[1..] == NatToString(-i);
      "-" + NatToString(-i)
    else
      NatToStringValue(i);
      NatToString(i)
  }

  /** The value of a concatenation of digit strings. */
  lemma {:induction false} DigitsValueAppend(a: string, b: string)
    requires AllDigits(a) && AllDigits(b)
    ensures AllDigits(a + b)
    ensures DigitsValue(a + b) == DigitsValue(a) * Pow10(|b|) + DigitsValue(b)
  {
    assert AllDigits(a + b);
    if b == [] {
      assert a + b == a;
    } else {
      var b' := b[..|b| - 1];
      assert (a + b)[..|a + b| - 1] == a + b';
      DigitsValueAppend(a, b');
      ShiftDigit(DigitsValue(a), DigitsValue(b'), Pow10(|b'|), b[|b| - 1] as int - '0' as int);
    }
  }

  lemma ShiftDigit(va: int, vb: int, p: int, c: int)
    ensures 10 * (va * p + vb) + c == va * (10 * p) + (10 * vb + c)
  {
  }

  function Zeros(k: nat): (z: string)
    ensures |z| == k && AllDigits(z)
  {
    seq(k, _ => '0')
  }

  lemma {:induction false} ZerosValue(k: nat)
    ensures DigitsValue(Zeros(k)) == 0
  {
    if k > 0 {
      assert Zeros(k)[..k - 1] == Zeros(k - 1);
      ZerosValue(k - 1);
    }
  }

  /** `m` padded with leading zeros to at least `f + 1` digits. */
  function Padded(m: string, f: nat): (p: string)
  {
    if |m| <= f then Zeros(f + 1 - |m|) + m else m
  }

  /** The digits of `n` with a decimal point inserted before the last `f` of them,
      padded with leading zeros so that at least one digit precedes the point. */
  function FixedDigits(n: nat, f: nat): (s: string)
  {
    if f == 0 then NatToString(n)
    else
      var p := Padded(NatToString(n), f);
      p[..|p| - f] + "." + p[|p| - f..]
  }

  /** `x.toFixed(f)` for `x >= 0`, following the ECMAScript definition of
      Number.prototype.toFixed on the exact value: the integer `n` nearest to
      `x * 10^f` (the larger one on a tie), written with `f` digits after the point. */
  function ToFixedNonNeg(x: real, f: nat): (s: string)
    requires x >= 0.0
  {
    FixedDigits(ScaledRound(x, Pow10(f)), f)
  }

  /** The integer nearest to `x * d` (`Math.round(x * d)`); never negative for `x >= 0`. */
  function ScaledRound(x: real, d: nat): (n: nat)
    requires x >= 0.0
  {
    RoundHalfUp(x * d as real)
  }

  /** `x.toFixed(f)`: a minus sign for negative `x`, then the digits of `|x|`. */
  function ToFixed(x: real, f: nat): (s: string)
  {
    if x < 0.0 then "-" + ToFixedNonNeg(-x, f) else ToFixedNonNeg(x, f)
  }

  /** The value `whole + frac / 10^f` of a numeral with `f` fraction digits. */
  function Scaled(whole: nat, frac: nat, f: nat): real
  {
    (whole * Pow10(f) + frac) as real / Pow10(f) as real
  }

  /** Reads an unsigned fixed-point numeral with exactly `f` fraction digits. */
  function ParseUnsignedFixed(s: string, f: nat): Option<real>
  {
    if f == 0 then
      if |s| > 0 && AllDigits(s) then Some(DigitsValue(s) as real) else None
    else if |s| >= f + 2 && s[|s| - f - 1] == '.'
            && AllDigits(s[..|s| - f - 1]) && AllDigits(s[|s| - f..]) then
      Some(Scaled(DigitsValue(s[..|s| - f - 1]), DigitsValue(s[|s| - f..]), f))
    else None
  }

  /** Reads a fixed-point numeral with an optional leading minus sign. */
  function ParseFixed(s: string, f: nat): Option<real>
  {
    if |s| > 0 && s[0] == '-' then
      match ParseUnsignedFixed(s[1..], f)
      case Some(v) => Some(-v)
      case None => None
    else ParseUnsignedFixed(s, f)
  }

  /** `y` is a whole number. */
  predicate IsWhole(y: real)
  {
    y.Floor as real == y
  }

  /** `x * d` is a whole number. */
  predicate WholeMultiple(x: real, d: nat)
  {
    IsWhole(x * d as real)
  }

  /** `x` lies on the grid of multiples of `10^-f`. */
  predicate OnGrid(x: real, f: nat)
  {
    WholeMultiple(x, Pow10(f))
  }

  /** A numeral with a point `f` places from its end reads as its two digit runs. */
  lemma ParseAtPoint(s: string, f: nat)
    requires f > 0 && |s| >= f + 2 && s[|s| - f - 1] == '.'
    requires AllDigits(s[..|s| - f - 1]) && AllDigits(s[|s| - f..])
    ensures ParseUnsignedFixed(s, f)
            == Some(Scaled(DigitsValue(s[..|s| - f - 1]), DigitsValue(s[|s| - f..]), f))
  {
  }

  /** A numeral `a.b` with `f` fraction digits reads as `(a * 10^f + b) / 10^f`. */
  lemma ParsePointed(a: string, b: string, f: nat)
    requires f > 0 && |a| >= 1 && |b| == f && AllDigits(a) && AllDigits(b)
    ensures ParseUnsignedFixed(a + "." + b, f) == Some(Scaled(DigitsValue(a), DigitsValue(b), f))
  {
    var s := a + "." + b;
    assert s == a + ("." + b);
    assert s[..|s| - f - 1] == a;
    assert s[|s| - f..] == b;
    ParseAtPoint(s, f);
  }

  /** Zero padding on the left does not change the value of the digits of `n`. */
  lemma PaddedValue(n: nat, f: nat)
    ensures var p := Padded(NatToString(n), f);
            |p| >= f + 1 && AllDigits(p) && DigitsValue(p) == n && IsDigit(p[0])
  {
    var m := NatToString(n);
    NatToStringValue(n);
    if |m| <= f {
      var z := Zeros(f + 1 - |m|);
      DigitsValueAppend(z, m);
      ZerosValue(f + 1 - |m|);
      assert DigitsValue(z + m) == 0 * Pow10(|m|) + DigitsValue(m);
      assert Padded(m, f) == z + m;
      assert (z + m)[0] == z[0];
    }
  }

  /** The fixed-point digits of `n` never start with a minus sign. */
  lemma FixedDigitsUnsigned(n: nat, f: nat)
    ensures |FixedDigits(n, f)| > 0 && FixedDigits(n, f)[0] != '-'
  {
    if f > 0 {
      PaddedValue(n, f);
      var p := Padded(NatToString(n), f);
      assert FixedDigits(n, f)[0] == p[0];
    }
  }

  lemma FixedDigitsValueWhole(n: nat)
    ensures ParseUnsignedFixed(FixedDigits(n, 0), 0) == Some(n as real / Pow10(0) as real)
  {
    NatToStringValue(n);
  }

  lemma FixedDigitsValuePointed(n: nat, f: nat)
    requires f > 0
    ensures ParseUnsignedFixed(FixedDigits(n, f), f) == Some(n as real / Pow10(f) as real)
  {
    PaddedValue(n, f);
    var p := Padded(NatToString(n), f);
    var a, b := p[..|p| - f], p[|p| - f..];
    assert p == a + b;
    DigitsValueAppend(a, b);
    ParsePointed(a, b, f);
    ScaledValue(DigitsValue(a), DigitsValue(b), f, n);
  }

  lemma ScaledValue(whole: nat, frac: nat, f: nat, n: nat)
    requires whole * Pow10(f) + frac == n
    ensures Scaled(whole, frac, f) == n as real / Pow10(f) as real
  {
  }

  /** The fixed-point digits of `n` read back as `n / 10^f`. */
  lemma FixedDigitsValue(n: nat, f: nat)
    ensures ParseUnsignedFixed(FixedDigits(n, f), f) == Some(n as real / Pow10(f) as real)
  {
    if f == 0 {
      FixedDigitsValueWhole(n);
    } else {
      FixedDigitsValuePointed(n, f);
    }
  }

  /** On a whole multiple, scaling and rounding recovers the multiple exactly. */
  lemma ScaledRoundWhole(x: real, d: nat)
    requires x >= 0.0 && d > 0 && WholeMultiple(x, d)
    ensures ScaledRound(x, d) as real == x * d as real
    ensures ScaledRound(x, d) as real / d as real == x
  {
    var k := (x * d as real).Floor;
    RoundHalfUpUnique(x * d as real, k);
  }

  /** On a non-negative grid value, `toFixed` reads back as the value. */
  lemma ToFixedNonNegRoundTrip(x: real, f: nat)
    requires x >= 0.0 && OnGrid(x, f)
    ensures ParseUnsignedFixed(ToFixedNonNeg(x, f), f) == Some(x)
    ensures ToFixedNonNeg(x, f)[0] != '-'
  {
    ScaledRoundWhole(x, Pow10(f));
    FixedDigitsValue(ScaledRound(x, Pow10(f)), f);
    FixedDigitsUnsigned(ScaledRound(x, Pow10(f)), f);
  }

  lemma NegatedWhole(x: real, d: nat)
    requires WholeMultiple(x, d)
    ensures WholeMultiple(-x, d)
  {
    var k := (x * d as real).Floor;
    assert (-x) * d as real == (-k) as real;
  }

  /** `toFixed(f)` loses nothing on a value of the `10^-f` grid: reading the
      string back gives the value. */
  lemma ToFixedRoundTrip(x: real, f: nat)
    requires OnGrid(x, f)
    ensures ParseFixed(ToFixed(x, f), f) == Some(x)
  {
    if x < 0.0 {
      NegatedWhole(x, Pow10(f));
      ToFixedNonNegRoundTrip(-x, f);
      var s := "-" + ToFixedNonNeg(-x, f);
      assert s[1..] == ToFixedNonNeg(-x, f);
    } else {
      ToFixedNonNegRoundTrip(x, f);
    }
  }

  /** `s.startsWith(prefix)`. */
  predicate StartsWith(s: string, prefix: string)
  {
    |prefix| <= |s| && s[..|prefix|] == prefix
  }

  /** `needle` occurs in `hay` at position `i`. */
  predicate OccursAt(hay: string, needle: string, i: nat)
  {
    i + |needle| <= |hay| && hay[i..i + |needle|] == needle
  }

  /** `hay.includes(needle)`: `needle` occurs somewhere in `hay`. */
  predicate Includes(hay: string, needle: string)
  {
    exists i: nat :: i <= |hay| && OccursAt(hay, needle, i)
  }

  /** `hay.indexOf(needle, from)`: the first occurrence at or after `from`, if any. */
  function IndexFrom(hay: string, needle: string, from: nat): (r: Option<nat>)
    ensures r.Some? ==> from <= r.value && OccursAt(hay, needle, r.value)
    ensures r.Some? ==> forall j: nat :: from <= j < r.value ==> !OccursAt(hay, needle, j)
    ensures r.None? ==> forall j: nat :: from <= j ==> !OccursAt(hay, needle, j)
    decreases |hay| - from
  {
    if from + |needle| > |hay| then None
    else if OccursAt(hay, needle, from) then Some(from)
    else IndexFrom(hay, needle, from + 1)
  }

  /** `includes` holds exactly when `indexOf` finds an occurrence. */
  lemma IncludesIndexOf(hay: string, needle: string)
    ensures Includes(hay, needle) <==> IndexFrom(hay, needle, 0).Some?
  {
  }

  /** ASCII `toLowerCase` of one character. */
  function LowerChar(c: char): char
  {
    if 'A' <= c <= 'Z' then (c as int - 'A' as int + 'a' as int) as char else c
  }

  /** `toLowerCase` over the ASCII letters; other characters are kept. */
  function Lower(s: string): (r: string)
    ensures |r| == |s|
    ensures forall i :: 0 <= i < |s| ==> r[i] == LowerChar(s[i])
    ensures forall i :: 0 <= i < |r| ==> !('A' <= r[i] <= 'Z')
  {
    seq(|s|, i requires 0 <= i < |s| => LowerChar(s[i]))
  }

  /** Lower-casing is idempotent. */
  lemma LowerIdempotent(s: string)
    ensures Lower(Lower(s)) == Lower(s)
  {
  }
}
