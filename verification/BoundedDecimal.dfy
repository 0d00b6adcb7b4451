/**
  The backend's `Amount` (crates/costs/src/model.rs): a bounded, normalized decimal. What it
  prints is what the dashboard prints for the same value, and both read it back alike.
 */
module BoundedDecimal {
  import opened Order
  import opened Decimal
  import opened Amount

  /** mantissa * 10^-scale, as the decimal library holds it. */
  datatype Dec = Dec(mantissa: int, scale: int)

  /** The value in integer decimal units; exact because at most 38 places are kept. */
  function UnitsOf(d: Dec): (v: int)
    requires d.scale <= PLACES
  {
    d.mantissa * Pow(PLACES - d.scale)
  }

  /** `normalized`: zero has scale zero, any other mantissa ends in a nonzero digit. */
  function Normalized(d: Dec): (r: Dec)
    ensures r.scale <= d.scale || d.mantissa == 0
    decreases Abs(d.mantissa)
  {
    if d.mantissa == 0 then Dec(0, 0)
    else if d.mantissa % 10 == 0 then Normalized(Dec(d.mantissa / 10, d.scale - 1))
    else d
  }

  predicate IsNormal(d: Dec) { if d.mantissa == 0 then d.scale == 0 else d.mantissa % 10 != 0 }

  /** `from_decimal`: at most 38 places, below 10^20. */
  function FromDecimal(d: Dec): (r: Option<Dec>) {
    if d.scale > PLACES || Abs(UnitsOf(d)) >= Limit() then None else Some(Normalized(d))
  }

  ghost predicate IsAmount(d: Dec) { d.scale <= PLACES && IsNormal(d) && Abs(UnitsOf(d)) < Limit() }

  lemma {:induction false} NormalizedKeeps(d: Dec)
    requires d.scale <= PLACES
    ensures var r := Normalized(d); IsNormal(r) && r.scale <= PLACES && UnitsOf(r) == UnitsOf(d)
    decreases Abs(d.mantissa)
  {
    if d.mantissa != 0 && d.mantissa % 10 == 0 {
      var e := Dec(d.mantissa / 10, d.scale - 1);
      NormalizedKeeps(e);
      assert Pow(PLACES - e.scale) == 10 * Pow(PLACES - d.scale);
      TimesTen(d.mantissa / 10, Pow(PLACES - d.scale));
    }
  }

  lemma TimesTen(q: int, p: nat)
    ensures q * (10 * p) == (q * 10) * p
  {
  }

  lemma FromDecimalMeans(d: Dec)
    ensures FromDecimal(d).Some? <==> d.scale <= PLACES && Abs(UnitsOf(d)) < Limit()
    ensures FromDecimal(d).Some? ==> IsAmount(FromDecimal(d).value) && UnitsOf(FromDecimal(d).value) == UnitsOf(d)
  {
    hide Pow, UnitsOf, Limit, Normalized;
    if d.scale <= PLACES {
      NormalizedKeeps(d);
    }
  }

  // ---------------------------------------------------------------- one value, one representation

  lemma NotTenfold(m: int, n: int, k: nat)
    requires m == n * Pow(k) && k >= 1
    ensures m % 10 == 0
  {
    assert m == (n * Pow(k - 1)) * 10;
  }

  lemma PowCancel(m: int, n: int, a: nat, b: nat)
    requires a >= b && m * Pow(a) == n * Pow(b)
    ensures n == m * Pow(a - b)
  {
    PowAdd(a - b, b);
    Cancel(m * Pow(a - b), n, Pow(b));
  }

  lemma Cancel(x: int, y: int, p: nat)
    requires p >= 1 && x * p == y * p
    ensures x == y
  {
    assert (x - y) * p == 0;
  }

  /** Two normalized decimals of one value are the same decimal, so comparing amounts is exact. */
  lemma NormalUnique(a: Dec, b: Dec)
    requires a.scale <= PLACES && b.scale <= PLACES && IsNormal(a) && IsNormal(b) && UnitsOf(a) == UnitsOf(b)
    ensures a == b
  {
    hide Pow;
    if a.mantissa == 0 {
      Product(b.mantissa, Pow(PLACES - b.scale));
    } else if b.mantissa == 0 {
      Product(a.mantissa, Pow(PLACES - a.scale));
    } else if a.scale <= b.scale {
      PowCancel(a.mantissa, b.mantissa, PLACES - a.scale, PLACES - b.scale);
      if a.scale < b.scale {
        NotTenfold(b.mantissa, a.mantissa, b.scale - a.scale);
      }
      One();
    } else {
      PowCancel(b.mantissa, a.mantissa, PLACES - b.scale, PLACES - a.scale);
      NotTenfold(a.mantissa, b.mantissa, a.scale - b.scale);
    }
  }

  lemma One()
    ensures Pow(0) == 1
  {
  }

  lemma Product(x: int, p: nat)
    requires p >= 1 && x * p == 0
    ensures x == 0
  {
  }

  // ---------------------------------------------------------------- addition

  /** Decimal addition at the larger scale. */
  function Sum(a: Dec, b: Dec): (r: Dec) {
    if a.scale >= b.scale then Dec(a.mantissa + b.mantissa * Pow(a.scale - b.scale), a.scale)
    else Dec(a.mantissa * Pow(b.scale - a.scale) + b.mantissa, b.scale)
  }

  function Add(a: Dec, b: Dec): (r: Option<Dec>) { FromDecimal(Sum(a, b)) }

  lemma SumUnits(a: Dec, b: Dec)
    requires a.scale <= PLACES && b.scale <= PLACES
    ensures Sum(a, b).scale <= PLACES && UnitsOf(Sum(a, b)) == UnitsOf(a) + UnitsOf(b)
  {
    hide Pow;
    if a.scale >= b.scale {
      PowAdd(a.scale - b.scale, PLACES - a.scale);
      Distribute(a.mantissa, b.mantissa, Pow(a.scale - b.scale), Pow(PLACES - a.scale));
    } else {
      PowAdd(b.scale - a.scale, PLACES - b.scale);
      Distribute(b.mantissa, a.mantissa, Pow(b.scale - a.scale), Pow(PLACES - b.scale));
    }
  }

  lemma Distribute(x: int, y: int, p: nat, q: nat)
    ensures (x + y * p) * q == x * q + y * (p * q)
  {
    assert (y * p) * q == y * (p * q);
  }

  /** Adding amounts is exact, and fails exactly when the sum leaves the bound. */
  lemma AddExact(a: Dec, b: Dec)
    requires IsAmount(a) && IsAmount(b)
    ensures Add(a, b).Some? <==> Abs(UnitsOf(a) + UnitsOf(b)) < Limit()
    ensures Add(a, b).Some? ==> IsAmount(Add(a, b).value) && UnitsOf(Add(a, b).value) == UnitsOf(a) + UnitsOf(b)
  {
    hide Pow, UnitsOf, Limit, Sum, FromDecimal, IsNormal;
    SumUnits(a, b);
    FromDecimalMeans(Sum(a, b));
  }

  // ---------------------------------------------------------------- printing

  /** `to_plain_string`: digits, zeros up to the point, and the point where the scale puts it. */
  function PlainDigits(m: nat, scale: int): (s: string) {
    var d := Digits(m);
    if scale <= 0 then d + Zeros(-scale)
    else if |d| <= scale then "0." + Zeros(scale - |d|) + d
    else d[..|d| - scale] + "." + d[|d| - scale..]
  }

  function Print(d: Dec): (s: string) { (if d.mantissa < 0 then "-" else []) + PlainDigits(Abs(d.mantissa), d.scale) }

  lemma {:induction false} FixedSplit(v: nat, a: nat, b: nat)
    ensures Fixed(v, a + b) == Fixed(High(v, b), a) + Fixed(Low(v, b), b)
    decreases b
  {
    if b == 0 {
      assert High(v, 0) == v && Fixed(v, a + 0) == Fixed(v, a);
    } else {
      FixedSplit(v / 10, a, b - 1);
      DivMod(v, Pow(b - 1));
      assert Pow(b) == 10 * Pow(b - 1);
      var r := Low(v, b);
      assert Low(v / 10, b - 1) == r / 10 && High(v / 10, b - 1) == High(v, b);
      assert Fixed(r, b) == Fixed(r / 10, b - 1) + [Digit(r % 10)];
      assert a + b - 1 == a + (b - 1);
    }
  }

  /** Dividing by ten times a power divides by ten first. */
  lemma DivMod(v: nat, p: nat)
    requires p >= 1
    ensures v / (10 * p) == v / 10 / p
    ensures v % (10 * p) / 10 == v / 10 % p && v % (10 * p) % 10 == v % 10
  {
    var q, r := v / 10, v % 10;
    var q2, r2 := q / p, q % p;
    assert q == p * q2 + r2;
    var low := r2 * 10 + r;
    assert v == (10 * p) * q2 + low by {
      assert 10 * (p * q2 + r2) == (10 * p) * q2 + 10 * r2;
    }
    assert low < 10 * p;
    DivUnit(q2, low, 10 * p);
    assert q2 * (10 * p) + low == v;
  }

  lemma HighBound(v: nat, n: nat, b: nat)
    requires v < Pow(n + b)
    ensures High(v, b) < Pow(n)
  {
    hide Pow;
    PowAdd(n, b);
    Quotient(v, Pow(b), Pow(n));
  }

  /** The digits of a number split at a place into its quotient and its fixed-width remainder. */
  lemma DigitsSplit(v: nat, b: nat)
    requires |Digits(v)| > b
    ensures var s := Digits(v); var n := |s| - b;
      s[..n] == Digits(High(v, b)) && s[n..] == Fixed(Low(v, b), b)
  {
    hide Pow, Digits, Fixed, Num, High, Low;
    var s := Digits(v);
    var n := |s| - b;
    NumDigits(v);
    FixedNum(s);
    HighBound(v, n, b) by { NumBound(s); }
    FixedSplit(v, n, b);
    assert s[..n] == Fixed(High(v, b), n);
    DigitsShape(v);
    FixedNoLead(High(v, b), n);
  }

  /** A fixed-width form with no leading zero is the plain form of its number. */
  lemma FixedNoLead(v: nat, n: nat)
    requires n >= 1 && NoLeadingZero(Fixed(v, n)) && v < Pow(n)
    ensures Fixed(v, n) == Digits(v)
  {
    hide Pow, Digits, Fixed, Num;
    NumFixed(v, n);
    DigitsNum(Fixed(v, n));
  }

  lemma DigitsZeros(m: nat, k: nat)
    requires m > 0
    ensures Digits(m * Pow(k)) == Digits(m) + Zeros(k)
  {
    hide Digits, Num, Pow, Zeros;
    NumConcat(Digits(m), Zeros(k));
    NumDigits(m);
    NumZeros(k);
    DigitsShape(m);
    DigitsNum(Digits(m) + Zeros(k));
  }

  lemma {:induction false} FixedZeros(x: nat, w: nat, k: nat)
    ensures Fixed(x * Pow(k), w + k) == Fixed(x, w) + Zeros(k)
  {
    if k == 0 {
      assert Fixed(x, w) + Zeros(0) == Fixed(x, w);
      assert x * Pow(0) == x;
    } else {
      FixedZeros(x, w, k - 1);
      var y := x * Pow(k - 1);
      assert x * Pow(k) == 10 * y by {
        assert Pow(k) == 10 * Pow(k - 1);
      }
      assert (10 * y) / 10 == y && (10 * y) % 10 == 0;
      assert w + k - 1 == w + (k - 1);
      assert Fixed(x, w) + Zeros(k) == (Fixed(x, w) + Zeros(k - 1)) + "0";
    }
  }

  /** A whole number of currency units has no fraction. */
  lemma WholeUnits(q: nat)
    ensures Quot(q * Pow(PLACES)) == q && Fraction(q * Pow(PLACES)) == []
  {
    hide Pow, Digits, Fixed, PadStart, Strip, Num;
    var m := q * Pow(PLACES);
    DivUnit(q, 0, Pow(PLACES));
    PadStartUnit(m);
    FixedUnit(m);
    StripIsEmpty(Fixed(Rem(m), PLACES));
  }

  /** The fraction of a value with `s` places ends where its mantissa does. */
  lemma PlacedUnits(m: nat, s: nat)
    requires 1 <= s <= PLACES && m % 10 != 0
    ensures Quot(m * Pow(PLACES - s)) == High(m, s) && Fraction(m * Pow(PLACES - s)) == Fixed(Low(m, s), s)
  {
    hide Pow, Digits, Fixed, PadStart, Strip, Num;
    var j := PLACES - s;
    var v := m * Pow(j);
    var q, r := High(m, s), Low(m, s);
    PowAdd(s, j);
    Shift(m, Pow(s), Pow(j));
    assert s + j == PLACES;
    PadStartUnit(v);
    FixedZeros(r, s, j);
    LastDigit(m, s);
    StripAt(Fixed(r, s) + Zeros(j), s);
    assert (Fixed(r, s) + Zeros(j))[..s] == Fixed(r, s);
  }

  lemma Shift(m: nat, p: nat, t: nat)
    requires p >= 1 && t >= 1
    ensures (m * t) / (p * t) == m / p && (m * t) % (p * t) == (m % p) * t
  {
    var q, r := m / p, m % p;
    assert m == q * p + r;
    assert m * t == q * (p * t) + r * t by {
      assert (q * p) * t == q * (p * t);
      assert (q * p + r) * t == (q * p) * t + r * t;
    }
    assert r * t < p * t;
    DivUnit(q, r * t, p * t);
  }

  lemma LastDigit(m: nat, s: nat)
    requires s >= 1 && m % 10 != 0
    ensures Fixed(Low(m, s), s)[s - 1] != '0'
  {
    hide Fixed;
    DivMod(m, Pow(s - 1));
    assert Pow(s) == 10 * Pow(s - 1);
    assert Low(m, s) % 10 == m % 10;
    FixedLast(Low(m, s), s);
  }

  lemma FixedLast(v: nat, w: nat)
    requires w >= 1
    ensures Fixed(v, w)[w - 1] == Digit(v % 10) && (v % 10 != 0 ==> Digit(v % 10) != '0')
  {
  }

  /** The backend's digits are the dashboard's, for every normalized mantissa and scale. */
  lemma PlainDigitsMatch(m: nat, scale: int)
    requires scale <= PLACES && (if m == 0 then scale == 0 else m % 10 != 0)
    ensures PlainDigits(m, scale) == PlainMagnitude(m * Pow(PLACES - scale))
  {
    hide Pow, Digits, Fixed, PadStart, Strip, Num, Quot, Rem, Fraction, High, Low;
    if scale <= 0 {
      var k := -scale;
      PowAdd(k, PLACES);
      Assoc3(m, Pow(k), Pow(PLACES));
      WholeUnits(m * Pow(k));
      if m == 0 {
        ZeroDigits();
      } else {
        DigitsZeros(m, k);
      }
    } else {
      PlacedUnits(m, scale);
      var d := Digits(m);
      if |d| <= scale {
        SmallDigits(m, scale);
      } else {
        DigitsSplit(m, scale);
      }
    }
  }

  lemma Assoc3(a: nat, b: nat, c: nat)
    ensures a * (b * c) == (a * b) * c
  {
  }

  lemma ZeroDigits()
    ensures Digits(0) + Zeros(0) == Digits(0) && 0 * Pow(0) == 0
  {
  }

  lemma SmallDigits(m: nat, scale: nat)
    requires |Digits(m)| <= scale
    ensures Digits(High(m, scale)) == "0" && Fixed(Low(m, scale), scale) == Zeros(scale - |Digits(m)|) + Digits(m)
  {
    hide Fixed, Num, Pow;
    var d := Digits(m);
    NumDigits(m);
    NumBound(d);
    PowMonotone(|d|, scale);
    assert High(m, scale) == 0 && Low(m, scale) == m by { DivUnit(0, m, Pow(scale)); }
    PadStartFixed(m, scale);
  }

  lemma SignOf(x: int, p: nat)
    requires p >= 1
    ensures (x * p < 0 <==> x < 0) && Abs(x * p) == Abs(x) * p
  {
    if x < 0 {
      assert x * p == -((-x) * p);
    }
  }

  /**
    An amount prints as the plain form of its value, which the dashboard's grammar accepts, in at
    most sixty characters.
   */
  lemma PrintIsPlain(d: Dec)
    requires IsAmount(d)
    ensures Print(d) == Plain(UnitsOf(d)) && Accepts(Print(d)) && |Print(d)| <= MAX_LENGTH && Units(Print(d)) == UnitsOf(d)
  {
    hide Pow, PlainDigits, PlainMagnitude, Accepts, Units, Limit;
    SignOf(d.mantissa, Pow(PLACES - d.scale));
    PlainDigitsMatch(Abs(d.mantissa), d.scale);
    UnitsOfPlain(UnitsOf(d));
    AcceptedLength(Plain(UnitsOf(d)));
  }

  lemma AcceptedLength(s: string)
    requires Accepts(s)
    ensures 1 <= |s| <= MAX_LENGTH && Plainly(s)
    ensures Point(s) < |s| ==> |s[Point(s) + 1..]| <= PLACES
  {
    var t := Unsigned(s);
    Rejoin(s);
    if Negative(s) {
      assert s[1..] == t;
      assert Point(s) == 1 + Point(t);
    }
    forall i | 0 <= i < |t|
      ensures IsDigit(t[i]) || t[i] == '.'
    {
      if i < Point(t) {
        assert t[i] == Lead(t)[i];
      } else if i > Point(t) {
        assert t[i] == Trail(t)[i - Point(t) - 1];
      }
    }
  }

  // ---------------------------------------------------------------- parsing

  predicate Plainly(s: string) { forall i :: 0 <= i < |s| ==> IsDigit(s[i]) || s[i] == '.' || s[i] == '-' }

  /** An integer: an optional sign and at least one digit. */
  function ParseInt(s: string): (v: Option<int>) {
    var t := Unsigned(s);
    if t == [] || !AllDigits(t) then None else Some(if Negative(s) then -(Num(t) as int) else Num(t))
  }

  /** The decimal library: the digits around the first point as one integer. */
  function ParseDec(s: string): (d: Option<Dec>) {
    var i := Point(s);
    if i == |s| then
      var v := ParseInt(s);
      if v.None? then None else Some(Dec(v.value, 0))
    else
      var trail := s[i + 1..];
      var v := ParseInt(s[..i] + trail);
      if v.None? then None else Some(Dec(v.value, |trail|))
  }

  /** `TryFrom<String>`: bounded length, characters and places, then the decimal, then the bound. */
  function Parse(s: string): (d: Option<Dec>) {
    if s == [] || |s| > MAX_LENGTH || !Plainly(s) || (Point(s) < |s| && |s[Point(s) + 1..]| > PLACES) then None
    else
      var d := ParseDec(s);
      if d.None? then None else FromDecimal(d.value)
  }

  /** The decimal read from a text of the grammar. */
  lemma ParseDecMeans(s: string)
    requires Accepts(s)
    ensures ParseDec(s).Some? && 0 <= ParseDec(s).value.scale <= PLACES && UnitsOf(ParseDec(s).value) == Units(s)
  {
    hide Pow, Num, Unit;
    var t := Unsigned(s);
    var w, f := Lead(t), Trail(t);
    TextOf(s);
    ScaledMagnitude(w, f);
    NegScale(Num(w + f), Pow(PLACES - |f|));
  }

  /** The library reads the lead and the trail as one signed integer. */
  lemma TextOf(s: string)
    requires Accepts(s)
    ensures var t := Unsigned(s); var digits := Lead(t) + Trail(t);
      AllDigits(digits) && ParseDec(s) == Some(Dec(if Negative(s) then -(Num(digits) as int) else Num(digits), |Trail(t)|))
  {
    hide Num;
    var t := Unsigned(s);
    var w, f := Lead(t), Trail(t);
    if Negative(s) {
      assert s[1..] == t && Point(s) == 1 + Point(t);
      assert s[..Point(s)] == "-" + w;
    } else {
      assert s[..Point(s)] == w;
    }
    var text := (if Negative(s) then "-" else []) + (w + f);
    assert Unsigned(text) == w + f;
    if Point(t) < |t| {
      assert s[Point(s) + 1..] == f;
      assert s[..Point(s)] + f == text;
    } else {
      assert f == [];
      assert s == text;
    }
  }

  lemma NegScale(x: nat, p: nat)
    ensures (-(x as int)) * p == -((x * p) as int)
  {
  }

  lemma ScaledMagnitude(w: string, f: string)
    requires AllDigits(w) && AllDigits(f) && |f| <= PLACES
    ensures AllDigits(w + f) && AllDigits(PadEnd(f, PLACES))
    ensures Num(w + f) * Pow(PLACES - |f|) == Num(w) * Unit() + Num(PadEnd(f, PLACES))
  {
    hide Pow, Num, Unit, Zeros;
    var j := PLACES - |f|;
    NumConcat(w, f);
    PaddedNum(f);
    UnitIs(|f|);
    Distribute(Num(f), Num(w), Pow(|f|), Pow(j));
  }

  lemma UnitIs(n: nat)
    requires n <= PLACES
    ensures Unit() == Pow(n) * Pow(PLACES - n)
  {
    PowAdd(n, PLACES - n);
  }

  lemma PaddedNum(f: string)
    requires AllDigits(f) && |f| <= PLACES
    ensures AllDigits(PadEnd(f, PLACES)) && Num(PadEnd(f, PLACES)) == Num(f) * Pow(PLACES - |f|)
  {
    hide Num, Zeros;
    var j := PLACES - |f|;
    NumConcat(f, Zeros(j));
    NumZeros(j);
    if j == 0 {
      assert f + Zeros(0) == f;
    }
  }

  /** Every text of the grammar is parsed by the backend to the value the dashboard reads. */
  lemma ParseMeansUnits(s: string)
    requires Accepts(s)
    ensures Parse(s).Some? && IsAmount(Parse(s).value) && UnitsOf(Parse(s).value) == Units(s)
  {
    hide Pow, Num, ParseDec, UnitsOf, Limit, Unit, FromDecimal, Accepts, Plainly;
    AcceptedLength(s);
    ParseDecMeans(s);
    FromDecimalMeans(ParseDec(s).value);
    MagnitudeBound(s);
  }

  /** An amount survives its own text: printed, then parsed, it is the same amount. */
  lemma ParsePrint(d: Dec)
    requires IsAmount(d)
    ensures Parse(Print(d)) == Some(d)
  {
    hide Parse, Print, UnitsOf, Limit, Accepts, Units, IsNormal;
    PrintIsPlain(d);
    ParseMeansUnits(Print(d));
    NormalUnique(Parse(Print(d)).value, d);
  }
}
