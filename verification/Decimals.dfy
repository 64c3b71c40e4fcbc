/** Decimal digit strings. */
module Decimals {
  predicate IsDigit(c: char) { '0' <= c <= '9' }

  predicate AllDigits(s: string) { forall i :: 0 <= i < |s| ==> IsDigit(s[i]) }

  /** Value of a digit string, most significant digit first. */
  function Decimal(s: string): nat
    requires AllDigits(s)
  {
    if |s| == 0 then 0 else Decimal(s[..|s| - 1]) * 10 + (s[|s| - 1] as int - '0' as int)
  }

  lemma AppendDigit(s: string, c: char)
    requires AllDigits(s) && IsDigit(c)
    ensures AllDigits(s + [c])
    ensures Decimal(s + [c]) == Decimal(s) * 10 + (c as int - '0' as int)
  {
    assert (s + [c])[..|s|] == s;
  }

  lemma TwoDigits(c: char, d: char)
    requires IsDigit(c) && IsDigit(d)
    ensures AllDigits([c, d]) && Decimal([c, d]) == 10 * (c as int - '0' as int) + (d as int - '0' as int)
  {
    AppendDigit([], c);
    AppendDigit([c], d);
    assert [c, d] == [c] + [d] && [c] == [] + [c];
  }

  lemma AppendTwoDigits(s: string, c: char, d: char)
    requires AllDigits(s) && IsDigit(c) && IsDigit(d)
    ensures AllDigits([c, d]) && AllDigits(s + [c, d])
    ensures Decimal(s + [c, d]) == Decimal(s) * 100 + Decimal([c, d])
  {
    AppendDigit(s, c);
    AppendDigit(s + [c], d);
    TwoDigits(c, d);
    assert s + [c, d] == s + [c] + [d];
  }

  /** Decimal notation without leading zeros. */
  function Digits(n: nat): string {
    (if n < 10 then [] else Digits(n / 10)) + [('0' as int + n % 10) as char]
  }

  lemma {:induction false} DigitsValue(n: nat)
    ensures AllDigits(Digits(n)) && Decimal(Digits(n)) == n
  {
    if n >= 10 { DigitsValue(n / 10); }
    AppendDigit(if n < 10 then [] else Digits(n / 10), ('0' as int + n % 10) as char);
  }

  function ZeroFill(s: string, width: nat): string
    decreases width - |s|
  {
    if |s| >= width then s else ZeroFill("0" + s, width)
  }

  /** At least `width` digits, filled with zeros from the left. */
  function Padded(n: nat, width: nat): string {
    ZeroFill(Digits(n), width)
  }

  lemma {:induction false} LeadingZero(s: string)
    requires AllDigits(s)
    ensures AllDigits("0" + s) && Decimal("0" + s) == Decimal(s)
  {
    if s == "" {
      AppendDigit([], '0');
      assert "0" + s == [] + ['0'];
    } else {
      var init, last := s[..|s| - 1], s[|s| - 1];
      LeadingZero(init);
      AppendDigit("0" + init, last);
      assert "0" + s == "0" + init + [last];
    }
  }

  lemma {:induction false} ZeroFillValue(s: string, width: nat)
    requires AllDigits(s)
    ensures AllDigits(ZeroFill(s, width)) && Decimal(ZeroFill(s, width)) == Decimal(s)
    decreases width - |s|
  {
    if |s| < width {
      LeadingZero(s);
      ZeroFillValue("0" + s, width);
    }
  }

  lemma {:induction false} DigitsLead(n: nat)
    ensures |Digits(n)| >= 1 && (n > 0 ==> Digits(n)[0] != '0')
  {
    if n >= 10 { DigitsLead(n / 10); }
  }

  function Pow10(w: nat): nat { if w == 0 then 1 else 10 * Pow10(w - 1) }

  lemma {:induction false} Pow10Grows(w: nat)
    requires w > 0
    ensures Pow10(w) >= 10
  {
    if w > 1 { Pow10Grows(w - 1); }
  }

  /** A number has at most `w` digits exactly when it is below the `w`th power of ten. */
  lemma {:induction false} DigitsFit(n: nat, w: nat)
    requires w > 0
    ensures |Digits(n)| <= w <==> n < Pow10(w)
    decreases w
  {
    DigitsLead(n);
    if w > 1 {
      if n >= 10 {
        DigitsFit(n / 10, w - 1);
      } else {
        Pow10Grows(w);
      }
    } else if n >= 10 {
      DigitsLead(n / 10);
    }
  }

  lemma {:induction false} ZeroFillWidth(s: string, width: nat)
    ensures |ZeroFill(s, width)| == if |s| >= width then |s| else width
    ensures |s| >= width ==> ZeroFill(s, width) == s
    decreases width - |s|
  {
    if |s| < width { ZeroFillWidth("0" + s, width); }
  }

  /** Padding fills to the width with zeros and no further: the number takes just the width when it fits. */
  lemma PaddedWidth(n: nat, width: nat)
    requires width > 0
    ensures AllDigits(Padded(n, width)) && Decimal(Padded(n, width)) == n
    ensures |Padded(n, width)| >= width
    ensures |Padded(n, width)| == width <==> n < Pow10(width)
    ensures |Padded(n, width)| > width ==> Padded(n, width)[0] != '0'
  {
    DigitsValue(n);
    DigitsLead(n);
    ZeroFillValue(Digits(n), width);
    ZeroFillWidth(Digits(n), width);
    DigitsFit(n, width);
  }

  /** Padding keeps the number readable, so different numbers are written differently. */
  lemma PaddedInjective(m: nat, n: nat, width: nat)
    requires Padded(m, width) == Padded(n, width)
    ensures m == n
  {
    DigitsValue(m);
    DigitsValue(n);
    ZeroFillValue(Digits(m), width);
    ZeroFillValue(Digits(n), width);
  }
}
