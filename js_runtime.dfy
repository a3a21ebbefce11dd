/** The few pieces of the JavaScript runtime the game logic relies on:
    the `%` operator on numbers and the rounding toward zero inside it,
    `String.prototype.toLowerCase`, `Number.prototype.toString` on integral
    values and `String.prototype.padStart`.
    Numbers are modelled as mathematical reals and integers, so floating-point
    rounding is not part of this module. */
module JsRuntime {

  // ---------------------------------------------------------------- numbers

  /** The rounding toward zero inside `%`. */
  function Trunc(x: real): (i: int)
    ensures x >= 0.0 ==> i as real <= x < i as real + 1.0
    ensures x < 0.0 ==> i as real - 1.0 < x <= i as real
    ensures i == 0 <==> -1.0 < x < 1.0
  {
    if x >= 0.0 then x.Floor else -((-x).Floor)
  }

  /** `x % m` on numbers: the remainder of the division truncated toward zero,
      so the result has the sign of the dividend `x` (unlike Dafny's `%`). */
  function Rem(x: real, m: real): (r: real)
    requires m > 0.0
    ensures x >= 0.0 ==> 0.0 <= r < m
    ensures x < 0.0 ==> -m < r <= 0.0
    ensures x >= 0.0 ==> r == x - (x / m).Floor as real * m
    ensures x < 0.0 ==> r == x + (-x / m).Floor as real * m
  {
    var q := Trunc(x / m);
    assert -x / m == -(x / m);
    RemBounds(x, m, q);
    x - q as real * m
  }

  /** The remainder left by the truncated quotient `q` of `x / m` lies
      strictly within one `m` of zero, on the side of `x`. */
  lemma RemBounds(x: real, m: real, q: int)
    requires m > 0.0
    requires q == Trunc(x / m)
    ensures x >= 0.0 ==> 0.0 <= x - q as real * m < m
    ensures x < 0.0 ==> -m < x - q as real * m <= 0.0
  {
    var y, qr := x / m, q as real;
    assert x == y * m;
    if x >= 0.0 {
      ScaleLe(qr, y, m, x);
      ScaleBelow(y, qr, m, x);
    } else {
      ScaleGe(y, qr, m, x);
      ScaleAbove(y, qr, m, x);
    }
  }

  lemma ScaleLe(a: real, b: real, m: real, x: real)
    requires m > 0.0 && a <= b && x == b * m
    ensures a * m <= x
  {
    var d := b - a;
    assert d * m >= 0.0;
    assert d * m == b * m - a * m;
  }

  lemma ScaleGe(a: real, b: real, m: real, x: real)
    requires m > 0.0 && a <= b && x == a * m
    ensures x <= b * m
  {
    var d := b - a;
    assert d * m >= 0.0;
    assert d * m == b * m - a * m;
  }

  lemma ScaleBelow(y: real, q: real, m: real, x: real)
    requires m > 0.0 && y < q + 1.0 && x == y * m
    ensures x < q * m + m
  {
    var d := q + 1.0 - y;
    assert d * m > 0.0;
    assert d * m == q * m + m - y * m;
    assert y * m < q * m + m;
  }

  lemma ScaleAbove(y: real, q: real, m: real, x: real)
    requires m > 0.0 && q - 1.0 < y && x == y * m
    ensures q * m - m < x
  {
    var d := y - q + 1.0;
    assert d * m > 0.0;
    assert d * m == y * m - q * m + m;
    assert q * m - m < y * m;
  }

  /** `Math.min` on integers. */
  function Min(a: int, b: int): (r: int)
    ensures r <= a && r <= b
    ensures r == a || r == b
  {
    if a <= b then a else b
  }

  // ---------------------------------------------------------------- strings

  /** `toLowerCase` on one character, for the ASCII letters. */
  function LowerChar(c: char): (d: char)
    ensures !('A' <= d <= 'Z')
    ensures 'A' <= c <= 'Z' ==> d as int == c as int + 32
    ensures !('A' <= c <= 'Z') ==> d == c
  {
    if 'A' <= c <= 'Z' then (c as int + 32) as char else c
  }

  /** `toLowerCase`: maps every ASCII capital to its small letter. */
  function LowerCase(s: string): (r: string)
    ensures |r| == |s|
    ensures forall i :: 0 <= i < |s| ==> r[i] == LowerChar(s[i])
  {
    seq(|s|, i requires 0 <= i < |s| => LowerChar(s[i]))
  }

  /** A string that `toLowerCase` leaves alone. */
  predicate IsLower(s: string) {
    forall i :: 0 <= i < |s| ==> !('A' <= s[i] <= 'Z')
  }

  /** Lower-casing always yields a lower-case string, and lower-casing it
      again changes nothing. */
  lemma LowerCaseIdempotent(s: string)
    ensures IsLower(LowerCase(s))
    ensures LowerCase(LowerCase(s)) == LowerCase(s)
  {
    var r := LowerCase(s);
    var rr := LowerCase(r);
    assert |rr| == |r|;
    forall i | 0 <= i < |r| ensures rr[i] == r[i] {
      assert rr[i] == LowerChar(r[i]);
    }
  }

  /** A lower-case string is its own lower-case form. */
  lemma LowerCaseOfLower(s: string)
    requires IsLower(s)
    ensures LowerCase(s) == s
  {
    var r := LowerCase(s);
    forall i | 0 <= i < |s| ensures r[i] == s[i] {
      assert r[i] == LowerChar(s[i]);
    }
  }

  /** `t` is what `toLowerCase` makes of `s`, checked character by
      character. */
  lemma LowerCaseOf(s: string, t: string)
    requires |s| == |t|
    requires forall i :: 0 <= i < |s| ==> LowerChar(s[i]) == t[i]
    ensures LowerCase(s) == t
  {
  }

  predicate IsDigit(c: char) {
    '0' <= c <= '9'
  }

  predicate AllDigits(s: string) {
    forall i :: 0 <= i < |s| ==> IsDigit(s[i])
  }

  function DigitChar(d: int): (c: char)
    requires 0 <= d < 10
    ensures IsDigit(c)
    ensures c as int - '0' as int == d
  {
    ('0' as int + d) as char
  }

  /** `toString` of a non-negative integer: its decimal digits. */
  function NatToString(n: nat): (s: string)
    ensures 1 <= |s|
    ensures AllDigits(s)
  {
    if n < 10 then [DigitChar(n)] else NatToString(n / 10) + [DigitChar(n % 10)]
  }

  /** `toString` writes no leading zero. */
  lemma {:induction false} NatToStringNoLeadingZero(n: nat)
    ensures |NatToString(n)| > 1 ==> NatToString(n)[0] != '0'
    ensures n > 0 ==> NatToString(n)[0] != '0'
  {
    if n >= 10 {
      NatToStringNoLeadingZero(n / 10);
      assert NatToString(n)[0] == NatToString(n / 10)[0];
    }
  }

  /** `toString` of an integer: a minus sign before the digits when negative
      (IntToStringDigits reads the digits back). */
  function IntToString(i: int): (s: string)
    ensures 1 <= |s|
    ensures s[0] == '-' <==> i < 0
  {
    if i < 0 then "-" + NatToString(-i) else NatToString(i)
  }

  /** Reading back the digits of `toString` gives the integer's magnitude:
      the whole string for a non-negative integer, the part after the sign
      for a negative one. */
  lemma IntToStringDigits(i: int)
    ensures i >= 0 ==> AllDigits(IntToString(i)) && DigitsValue(IntToString(i)) == i
    ensures i < 0 ==> |IntToString(i)| >= 2
    ensures i < 0 ==> AllDigits(IntToString(i)[1..]) && DigitsValue(IntToString(i)[1..]) == -i
  {
    if i >= 0 {
      DigitsValueOfNatToString(i);
    } else {
      DigitsValueOfNatToString(-i);
      assert IntToString(i)[1..] == NatToString(-i);
    }
  }

  /** The number a string of decimal digits denotes (the inverse of
      NatToString, which is `parseInt` on such strings). */
  function DigitsValue(s: string): (v: nat)
    requires AllDigits(s)
  {
    if s == [] then 0
    else DigitsValue(s[..|s| - 1]) * 10 + (s[|s| - 1] as int - '0' as int)
  }

  /** Reading back the digits `toString` produced gives the number. */
  lemma {:induction false} DigitsValueOfNatToString(n: nat)
    ensures DigitsValue(NatToString(n)) == n
  {
    var s := NatToString(n);
    if n >= 10 {
      var prefix := NatToString(n / 10);
      assert s[..|s| - 1] == prefix;
      DigitsValueOfNatToString(n / 10);
    }
  }

  /** A leading zero does not change the value of a digit string. */
  lemma {:induction false} DigitsValueLeadingZero(s: string)
    requires AllDigits(s)
    ensures AllDigits("0" + s)
    ensures DigitsValue("0" + s) == DigitsValue(s)
  {
    var z := "0" + s;
    if s != [] {
      assert z[..|z| - 1] == "0" + s[..|s| - 1];
      DigitsValueLeadingZero(s[..|s| - 1]);
    } else {
      assert z[..|z| - 1] == [];
    }
  }

  /** The number of digits `toString` writes: one below 10, two below 100,
      at least three from 100 on. */
  lemma {:induction false} NatToStringLength(n: nat)
    ensures n < 10 <==> |NatToString(n)| == 1
    ensures 10 <= n < 100 ==> |NatToString(n)| == 2
    ensures 100 <= n ==> |NatToString(n)| >= 3
  {
    if n >= 10 {
      NatToStringLength(n / 10);
    }
  }

  /** `s.padStart(len, fill)`: prepends copies of `fill` up to length `len`
      and never shortens `s`. */
  function PadStart(s: string, len: nat, fill: char): (r: string)
    ensures |r| == if |s| >= len then |s| else len
    ensures forall i :: 0 <= i < |s| ==> r[|r| - |s| + i] == s[i]
    ensures forall i :: 0 <= i < |r| - |s| ==> r[i] == fill
  {
    if |s| >= len then s else seq(len - |s|, _ => fill) + s
  }
}
