/**
 * Temperatures held in tenths of a degree: the text Python prints for such a
 * value and the way `float` reads that text back.
 */
module Tenths {
  import opened Wrappers
  import opened Text

  function Abs(t: int): nat { if t < 0 then -t else t }

  /** The part of `str(t / 10)` before the decimal point, with its sign. */
  function TenthsWhole(t: int): string {
    if t < 0 then "-" + NatToString((-t) / 10) else NatToString(t / 10)
  }

  /** The single digit of `str(t / 10)` after the decimal point. */
  function TenthsFrac(t: int): string {
    [DigitChar(Abs(t) % 10)]
  }

  /**
   * `str(x)` for the float x = round(v, 1) held as t = 10 * x: Python prints
   * such a value with one decimal, as in "21.3", "20.0" or "-0.5".
   */
  function TenthsToString(t: int): string {
    TenthsWhole(t) + "." + TenthsFrac(t)
  }

  /** The text of a temperature in tenths splits at its point into the whole and the fractional digits. */
  lemma TenthsSplit(t: int)
    ensures SplitPair(TenthsToString(t), '.') == Some((TenthsWhole(t), TenthsFrac(t)))
  {
    var w := TenthsWhole(t);
    if t < 0 {
      var digits := NatToString((-t) / 10);
      assert forall i :: 0 <= i < |w| ==> w[i] == '-' || IsDigit(w[i]) by {
        forall i | 0 <= i < |w| ensures w[i] == '-' || IsDigit(w[i]) {
          if i > 0 { assert w[i] == digits[i - 1]; }
        }
      }
    }
    assert '.' !in w;
    assert '.' !in TenthsFrac(t);
    SplitPairOfJoin(w, TenthsFrac(t), '.');
  }

  /** Text that splits at its one decimal point into two runs of digits reads as whole part plus fraction. */
  lemma {:induction false} ParseTwoParts(s: string, w: string, f: string)
    requires Split(s, '.') == [w, f]
    requires |w| >= 1 && AllDigits(w) && AllDigits(f)
    ensures ParseUnsignedDecimal(s) == Some(DigitsValue(w) as real + FractionValue(f))
  {
    var parts := Split(s, '.');
    assert parts[0] == w;
  }

  /** One digit after the point is worth a tenth of its value. */
  lemma OneDigitFraction(c: char)
    requires IsDigit(c)
    ensures FractionValue([c]) == DigitValue(c) as real / 10.0
  {
    assert [c][1..] == [];
  }

  /** Digits, a point and one more digit read as the whole part plus that digit's fraction. */
  lemma {:induction false} ParsePointed(w: string, c: char)
    requires |w| >= 1 && AllDigits(w) && IsDigit(c)
    ensures ParseUnsignedDecimal(w + "." + [c]) == Some(DigitsValue(w) as real + FractionValue([c]))
  {
    var f := [c];
    assert '.' !in w by {
      forall i | 0 <= i < |w| ensures w[i] != '.' { assert IsDigit(w[i]); }
    }
    SplitPairOfJoin(w, f, '.');
    var parts := Split(w + "." + f, '.');
    assert parts == [w, f];
    ParseTwoParts(w + "." + f, w, f);
  }

  /** The unsigned text of a temperature of n tenths reads back as n / 10. */
  lemma ParseUnsignedTenths(n: nat)
    ensures ParseUnsignedDecimal(NatToString(n / 10) + "." + [DigitChar(n % 10)]) == Some(n as real / 10.0)
  {
    var q, r := n / 10, n % 10;
    ParsePointed(NatToString(q), DigitChar(r));
    OneDigitFraction(DigitChar(r));
    DigitsValueOfNat(q);
    assert n == 10 * q + r;
    assert q as real + r as real / 10.0 == n as real / 10.0;
  }

  /** A leading minus negates an unsigned decimal; text that starts with a digit has no sign. */
  lemma SignedDecimal(x: string, u: string, negative: bool, v: real)
    requires ParseUnsignedDecimal(u) == Some(v)
    requires |u| >= 1 && IsDigit(u[0])
    requires x == if negative then "-" + u else u
    ensures ParseDecimal(x) == Some(if negative then -v else v)
  {
    if negative {
      assert x[1..] == u;
    }
  }

  /** The text of a temperature is the text of its magnitude, after a minus sign when it is negative. */
  lemma TenthsSign(t: int)
    ensures TenthsToString(t) == if t < 0 then "-" + TenthsToString(Abs(t)) else TenthsToString(Abs(t))
    ensures TenthsToString(Abs(t)) == NatToString(Abs(t) / 10) + "." + [DigitChar(Abs(t) % 10)]
  {
  }

  /** Reading the text of a temperature back with `float` gives the temperature. */
  lemma ParseTenths(t: int)
    ensures ParseDecimal(TenthsToString(t)) == Some(t as real / 10.0)
  {
    var n := Abs(t);
    var u := TenthsToString(n);
    TenthsSign(t);
    ParseUnsignedTenths(n);
    assert u[0] == NatToString(n / 10)[0];
    SignedDecimal(TenthsToString(t), u, t < 0, n as real / 10.0);
    assert (if t < 0 then -(n as real / 10.0) else n as real / 10.0) == t as real / 10.0;
  }
}
