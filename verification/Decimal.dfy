/** Decimal digit strings: the arithmetic that printing and parsing exact amounts rests on. */
module Decimal {

  function Pow(n: nat): (p: nat)
    ensures p >= 1
  {
    if n == 0 then 1 else 10 * Pow(n - 1)
  }

  /** A number without its last `b` digits, and those digits. */
  function High(v: nat, b: nat): (q: nat) {
    hide Pow;
    v / Pow(b)
  }

  function Low(v: nat, b: nat): (r: nat) {
    hide Pow;
    v % Pow(b)
  }

  lemma {:induction false} PowAdd(a: nat, b: nat)
    ensures Pow(a + b) == Pow(a) * Pow(b)
  {
    if a > 0 {
      PowAdd(a - 1, b);
    }
  }

  lemma {:induction false} PowMonotone(a: nat, b: nat)
    requires a <= b
    ensures Pow(a) <= Pow(b)
  {
    if a < b {
      PowMonotone(a, b - 1);
    }
  }

  predicate IsDigit(c: char) { '0' <= c <= '9' }

  predicate AllDigits(s: string) { forall i :: 0 <= i < |s| ==> IsDigit(s[i]) }

  function Digit(d: nat): (c: char)
    requires d < 10
    ensures IsDigit(c) && Value(c) == d
  {
    '0' + d as char
  }

  function Value(c: char): (d: nat)
    requires IsDigit(c)
    ensures d < 10
  {
    (c - '0') as nat
  }

  lemma DigitValue(c: char)
    requires IsDigit(c)
    ensures Digit(Value(c)) == c
  {
  }

  /** The decimal digits of a number, without leading zeros. */
  function Digits(v: nat): (s: string)
    ensures |s| >= 1 && AllDigits(s)
  {
    if v < 10 then [Digit(v)] else Digits(v / 10) + [Digit(v % 10)]
  }

  /** The last `width` decimal digits of a number. */
  function Fixed(v: nat, width: nat): (s: string)
    ensures |s| == width && AllDigits(s)
  {
    if width == 0 then [] else Fixed(v / 10, width - 1) + [Digit(v % 10)]
  }

  /** The number a digit string names. */
  function Num(s: string): (v: nat)
    requires AllDigits(s)
  {
    if s == [] then 0 else Num(s[..|s| - 1]) * 10 + Value(s[|s| - 1])
  }

  function Zeros(n: nat): (s: string)
    ensures |s| == n && AllDigits(s) && forall i :: 0 <= i < n ==> s[i] == '0'
  {
    if n == 0 then [] else Zeros(n - 1) + "0"
  }

  lemma Last(s: string, c: char)
    ensures (s + [c])[..|s|] == s && (s + [c])[|s|] == c
  {
  }

  lemma {:induction false} NumDigits(v: nat)
    ensures Num(Digits(v)) == v
  {
    if v >= 10 {
      NumDigits(v / 10);
      Last(Digits(v / 10), Digit(v % 10));
    } else {
      assert Num([Digit(v)]) == Num([]) * 10 + v;
    }
  }

  lemma {:induction false} NumFixed(v: nat, width: nat)
    requires v < Pow(width)
    ensures Num(Fixed(v, width)) == v
  {
    if width > 0 {
      NumFixed(v / 10, width - 1);
      Last(Fixed(v / 10, width - 1), Digit(v % 10));
    }
  }

  lemma {:induction false} NumBound(s: string)
    requires AllDigits(s)
    ensures Num(s) < Pow(|s|)
  {
    if s != [] {
      NumBound(s[..|s| - 1]);
    }
  }

  lemma {:induction false} NumConcat(a: string, b: string)
    requires AllDigits(a) && AllDigits(b)
    ensures AllDigits(a + b) && Num(a + b) == Num(a) * Pow(|b|) + Num(b)
  {
    if b == [] {
      assert a + b == a;
    } else {
      var n := |b| - 1;
      NumConcat(a, b[..n]);
      assert (a + b)[..|a + b| - 1] == a + b[..n];
      assert Num(a + b) == Num(a + b[..n]) * 10 + Value(b[n]);
      Scale(Num(a), Pow(n));
    }
  }

  lemma Scale(x: nat, p: nat)
    ensures x * p * 10 == x * (10 * p)
  {
  }

  lemma {:induction false} NumZeros(n: nat)
    ensures Num(Zeros(n)) == 0
  {
    if n > 0 {
      NumZeros(n - 1);
      Last(Zeros(n - 1), '0');
    }
  }

  lemma FixedPush(q: nat, d: nat, width: nat)
    requires d < 10
    ensures Fixed(q * 10 + d, width + 1) == Fixed(q, width) + [Digit(d)]
  {
    DivTen(q, d);
  }

  /** A digit string is the fixed-width form of its own number. */
  lemma {:induction false} FixedNum(s: string)
    requires AllDigits(s)
    ensures Fixed(Num(s), |s|) == s
  {
    hide Fixed, Num;
    if s == [] {
      FixedNone(Num(s));
    } else {
      var n := |s| - 1;
      FixedNum(s[..n]);
      NumPush(s);
      FixedPush(Num(s[..n]), Value(s[n]), n);
      DigitValue(s[n]);
      assert s == s[..n] + [s[n]];
    }
  }

  lemma FixedNone(v: nat)
    ensures Fixed(v, 0) == []
  {
  }

  lemma NumPush(s: string)
    requires AllDigits(s) && s != []
    ensures Num(s) == Num(s[..|s| - 1]) * 10 + Value(s[|s| - 1])
  {
  }

  lemma DivTen(q: nat, d: nat)
    requires d < 10
    ensures (q * 10 + d) / 10 == q && (q * 10 + d) % 10 == d
  {
  }

  /** Two digit strings of one length name one number only when they are equal. */
  lemma NumInjective(a: string, b: string)
    requires AllDigits(a) && AllDigits(b) && |a| == |b| && Num(a) == Num(b)
    ensures a == b
  {
    FixedNum(a);
    FixedNum(b);
  }

  lemma {:induction false} DigitsLength(v: nat, width: nat)
    requires v < Pow(width) && width >= 1
    ensures |Digits(v)| <= width
  {
    if v >= 10 {
      assert width > 1 by {
        assert Pow(1) == 10;
      }
      DigitsLength(v / 10, width - 1);
    }
  }

  predicate NoLeadingZero(s: string) { |s| == 1 || (|s| > 1 && s[0] != '0') }

  lemma {:induction false} DigitsShape(v: nat)
    ensures NoLeadingZero(Digits(v)) && (v > 0 ==> Digits(v)[0] != '0')
  {
    if v >= 10 {
      DigitsShape(v / 10);
    }
  }

  /** A digit string without a leading zero is the canonical form of its number. */
  lemma {:induction false} DigitsNum(s: string)
    requires AllDigits(s) && NoLeadingZero(s)
    ensures Digits(Num(s)) == s
  {
    var n := |s| - 1;
    DigitValue(s[n]);
    assert s == s[..n] + [s[n]];
    if n == 0 {
      assert s[..0] == [];
    } else {
      DigitsNum(s[..n]);
      DivTen(Num(s[..n]), Value(s[n]));
      Positive(s[..n]);
    }
  }

  lemma {:induction false} Positive(s: string)
    requires AllDigits(s) && |s| >= 1 && s[0] != '0'
    ensures Num(s) >= 1
  {
    var n := |s| - 1;
    if n > 0 {
      Positive(s[..n]);
    } else {
      assert s[..0] == [];
      DigitValue(s[0]);
      assert Value(s[0]) > 0;
    }
  }

  // ---------------------------------------------------------------- padding and stripping

  function PadStart(s: string, width: nat): (r: string) {
    if |s| >= width then s else Zeros(width - |s|) + s
  }

  function PadEnd(s: string, width: nat): (r: string) {
    if |s| >= width then s else s + Zeros(width - |s|)
  }

  /** Without the zeros at the end. */
  function Strip(s: string): (r: string)
    ensures |r| <= |s| && r == s[..|r|] && (r == [] || r[|r| - 1] != '0')
    ensures forall i :: |r| <= i < |s| ==> s[i] == '0'
  {
    if s == [] then [] else if s[|s| - 1] == '0' then Strip(s[..|s| - 1]) else s
  }

  lemma PadStartFixed(v: nat, width: nat)
    requires v < Pow(width) && width >= 1
    ensures PadStart(Digits(v), width) == Fixed(v, width)
  {
    hide Digits, Fixed, Num, Zeros, Pow;
    var s := Digits(v);
    DigitsLength(v, width);
    NumDigits(v);
    NumFixed(v, width);
    NumConcat(Zeros(if |s| < width then width - |s| else 0), s);
    NumZeros(if |s| < width then width - |s| else 0);
    NumInjective(PadStart(s, width), Fixed(v, width));
  }

  lemma PadEndStrip(s: string)
    ensures PadEnd(Strip(s), |s|) == s
  {
    hide Strip, Zeros;
    var r := Strip(s);
    assert s == s[..|r|] + s[|r|..];
    assert s[|r|..] == Zeros(|s| - |r|);
  }

  lemma {:induction false} StripAt(s: string, n: nat)
    requires n <= |s| && (n == 0 || s[n - 1] != '0') && forall i :: n <= i < |s| ==> s[i] == '0'
    ensures Strip(s) == s[..n]
  {
    if n == |s| {
      assert s[..n] == s;
    } else {
      StripAt(s[..|s| - 1], n);
      assert s[..|s| - 1][..n] == s[..n];
    }
  }

  lemma StripPadEnd(s: string, width: nat)
    requires s == [] || s[|s| - 1] != '0'
    ensures Strip(PadEnd(s, width)) == s
  {
    StripAt(PadEnd(s, width), |s|);
  }

  lemma {:induction false} StripIsEmpty(s: string)
    requires AllDigits(s)
    ensures Strip(s) == [] <==> Num(s) == 0
  {
    if s != [] {
      var n := |s| - 1;
      DigitValue(s[n]);
      if s[n] == '0' {
        StripIsEmpty(s[..n]);
      }
    }
  }
}
