/**
  Exact money: the dashboard's `units` and `plain` (dashboard/src/cost-schema.ts) and the
  backend's bounded decimal `Amount` (crates/costs/src/model.rs).
 */
module Amount {
  import opened Order
  import opened Decimal

  const PLACES: nat := 38
  const WHOLE: nat := 20
  const MAX_LENGTH: nat := 60

  /** One currency unit in integer decimal units. */
  function Unit(): (u: nat)
    ensures u >= 1
  {
    Pow(PLACES)
  }

  /** Amounts stay strictly below twenty integer digits. */
  function Limit(): (n: nat) { Pow(PLACES + WHOLE) }

  function Abs(v: int): (m: nat) { if v < 0 then -v else v }

  // ---------------------------------------------------------------- the grammar

  /** The position of the first point, or the length. */
  function Point(s: string): (i: nat)
    ensures i <= |s| && (i < |s| ==> s[i] == '.') && forall k :: 0 <= k < i ==> s[k] != '.'
  {
    if s == [] || s[0] == '.' then 0 else 1 + Point(s[1..])
  }

  predicate Negative(s: string) { s != [] && s[0] == '-' }

  function Unsigned(s: string): (t: string) { if Negative(s) then s[1..] else s }

  function Lead(t: string): (w: string) { t[..Point(t)] }

  function Trail(t: string): (f: string) { if Point(t) < |t| then t[Point(t) + 1..] else [] }

  /** An optional sign, one to twenty digits, and optionally a point with one to 38 digits. */
  predicate Accepts(s: string) {
    var t := Unsigned(s);
    && AllDigits(Lead(t)) && AllDigits(Trail(t)) && 1 <= |Lead(t)| <= WHOLE && |Trail(t)| <= PLACES
    && (Point(t) < |t| ==> |Trail(t)| >= 1)
  }

  function Magnitude(s: string): (m: nat)
    requires Accepts(s)
  {
    hide Unit;
    NumPadEnd(Trail(Unsigned(s)));
    Num(Lead(Unsigned(s))) * Unit() + Num(PadEnd(Trail(Unsigned(s)), PLACES))
  }

  lemma NumPadEnd(f: string)
    requires AllDigits(f)
    ensures AllDigits(PadEnd(f, PLACES))
  {
  }

  function Units(s: string): (v: int) {
    if !Accepts(s) then 0 else if Negative(s) then -(Magnitude(s) as int) else Magnitude(s)
  }

  /** Whole currency units, and the decimal units beyond them. */
  function Quot(m: nat): (q: nat) {
    hide Unit;
    m / Unit()
  }

  function Rem(m: nat): (r: nat) {
    hide Unit;
    m % Unit()
  }

  function Fraction(m: nat): (f: string) { hide Unit; Strip(PadStart(Digits(Rem(m)), PLACES)) }

  function PlainMagnitude(m: nat): (s: string) {
    hide Unit, Digits, Fraction;
    Join(Digits(Quot(m)), Fraction(m))
  }

  function Join(w: string, f: string): (t: string) { w + if f != [] then "." + f else [] }

  function Plain(v: int): (s: string) { (if v < 0 then "-" else []) + PlainMagnitude(Abs(v)) }

  // ---------------------------------------------------------------- reading back what was printed

  lemma {:induction false} PointAfter(a: string, rest: string)
    requires AllDigits(a) && (rest == [] || rest[0] == '.')
    ensures Point(a + rest) == |a|
  {
    if a == [] {
      assert a + rest == rest;
    } else {
      assert (a + rest)[1..] == a[1..] + rest;
      PointAfter(a[1..], rest);
    }
  }

  lemma PartsOf(w: string, f: string)
    requires AllDigits(w) && w != []
    ensures var t := Join(w, f);
      Lead(t) == w && Trail(t) == f && (Point(t) < |t| <==> f != [])
      && !Negative(t) && Unsigned(t) == t && Unsigned("-" + t) == t && Negative("-" + t)
  {
    PointAfter(w, if f != [] then "." + f else []);
  }

  lemma AcceptsJoin(s: string, w: string, f: string)
    requires AllDigits(w) && AllDigits(f) && w != [] && Unsigned(s) == Join(w, f)
    ensures Accepts(s) <==> |w| <= WHOLE && |f| <= PLACES
    ensures Canonical(s) <==> Accepts(s) && NoLeadingZero(w) && (f != [] ==> f[|f| - 1] != '0') && s != "-0"
  {
    hide Point, Lead, Trail, Join, Unsigned;
    PartsOf(w, f);
  }

  lemma FractionFacts(m: nat)
    ensures var f := Fraction(m);
      AllDigits(f) && |f| <= PLACES && PadEnd(f, PLACES) == Fixed(Rem(m), PLACES) && (f != [] ==> f[|f| - 1] != '0')
  {
    hide Digits, Fixed, PadStart;
    PadStartFixed(Rem(m), PLACES);
    var p := Fixed(Rem(m), PLACES);
    PadEndStrip(p);
  }

  lemma MagnitudeParts(m: nat)
    ensures Quot(m) * Unit() + Rem(m) == m && Rem(m) < Unit()
  {
  }

  lemma WholeBound(m: nat)
    ensures Quot(m) < Pow(WHOLE) <==> m < Limit()
  {
    PowAdd(PLACES, WHOLE);
    MagnitudeParts(m);
    Quotient(m, Unit(), Pow(WHOLE));
  }

  lemma Quotient(m: nat, u: nat, p: nat)
    requires u >= 1
    ensures m / u < p <==> m < u * p
  {
    var q, r := m / u, m % u;
    assert m == u * q + r;
    if q < p {
      assert u * (q + 1) <= u * p by { Times(u, q + 1, p); }
    } else {
      Times(u, p, q);
    }
  }

  lemma Times(u: nat, a: nat, b: nat)
    requires a <= b
    ensures u * a <= u * b
  {
  }

  lemma {:induction false} DigitsLong(v: nat, n: nat)
    requires v >= Pow(n)
    ensures |Digits(v)| > n
  {
    if n > 0 {
      DigitsLong(v / 10, n - 1);
    }
  }

  /** What is printed fits the amount grammar exactly when the value is within the limit. */
  lemma PlainFits(v: int)
    ensures Accepts(Plain(v)) <==> Abs(v) < Limit()
  {
    hide Pow, Digits, Fraction, Accepts, Limit, Unit, Quot, Rem, Plain, Canonical, Join;
    var m := Abs(v);
    FractionFacts(m);
    SignedPlain(v);
    AcceptsJoin(Plain(v), Digits(Quot(m)), Fraction(m));
    WholeBound(m);
    if m < Limit() {
      DigitsLength(Quot(m), WHOLE);
    } else {
      DigitsLong(Quot(m), WHOLE);
    }
  }

  lemma SignedPlain(v: int)
    ensures Unsigned(Plain(v)) == PlainMagnitude(Abs(v)) && (Negative(Plain(v)) <==> v < 0)
  {
    hide Digits, Fraction, Point;
    assert IsDigit(PlainMagnitude(Abs(v))[0]);
  }

  /** Every value within the limit is read back unchanged. */
  lemma UnitsOfPlain(v: int)
    requires Abs(v) < Limit()
    ensures Accepts(Plain(v)) && Units(Plain(v)) == v
  {
    hide Pow, Digits, Fraction, Point, Lead, Trail, Limit, Unit, Quot, Rem, Fixed, Num, Accepts, Plain, Join;
    var m := Abs(v);
    PlainFits(v);
    SignedPlain(v);
    FractionFacts(m);
    PartsOf(Digits(Quot(m)), Fraction(m));
    NumDigits(Quot(m));
    MagnitudeParts(m);
    FixedUnit(m);
  }

  lemma FixedUnit(m: nat)
    ensures Num(Fixed(Rem(m), PLACES)) == Rem(m)
  {
    NumFixed(Rem(m), PLACES);
  }

  // ---------------------------------------------------------------- canonical form

  /** No leading zero, no trailing fractional zero, no negative zero. */
  predicate Canonical(s: string) {
    && Accepts(s) && NoLeadingZero(Lead(Unsigned(s)))
    && (Trail(Unsigned(s)) != [] ==> Trail(Unsigned(s))[|Trail(Unsigned(s))| - 1] != '0')
    && s != "-0"
  }

  lemma MagnitudeBound(s: string)
    requires Accepts(s)
    ensures Magnitude(s) < Limit()
    ensures Quot(Magnitude(s)) == Num(Lead(Unsigned(s))) && Rem(Magnitude(s)) == Num(PadEnd(Trail(Unsigned(s)), PLACES))
  {
    hide Point, Lead, Trail, Num;
    var w, f := Lead(Unsigned(s)), PadEnd(Trail(Unsigned(s)), PLACES);
    NumBound(w);
    NumBound(f);
    PowMonotone(|w|, WHOLE);
    DivUnit(Num(w), Num(f), Unit());
    WholeBound(Magnitude(s));
  }

  lemma DivUnit(q: nat, r: nat, u: nat)
    requires r < u
    ensures (q * u + r) / u == q && (q * u + r) % u == r
  {
    var x := q * u + r;
    var d := x / u - q;
    assert x == u * (x / u) + x % u;
    assert u * d == r - x % u by {
      assert u * (x / u - q) == u * (x / u) - u * q;
    }
    Multiples(u, d);
  }

  lemma Multiples(n: nat, d: int)
    ensures (d >= 1 ==> n * d >= n) && (d <= -1 ==> n * d <= -(n as int))
  {
    if d >= 1 {
      assert n * d == n + n * (d - 1);
    } else if d <= -1 {
      assert n * d == -(n as int) + n * (d + 1);
    }
  }

  lemma Rejoin(s: string)
    requires Accepts(s)
    ensures Unsigned(s) == Join(Lead(Unsigned(s)), Trail(Unsigned(s)))
    ensures s == (if Negative(s) then "-" else []) + Unsigned(s)
  {
    var t := Unsigned(s);
    var i := Point(t);
    if i < |t| {
      assert t == t[..i] + [t[i]] + t[i + 1..];
    }
  }

  /** The canonical text of a magnitude is its own. */
  lemma PlainOfMagnitude(s: string)
    requires Accepts(s) && NoLeadingZero(Lead(Unsigned(s)))
    requires Trail(Unsigned(s)) != [] ==> Trail(Unsigned(s))[|Trail(Unsigned(s))| - 1] != '0'
    ensures PlainMagnitude(Magnitude(s)) == Unsigned(s)
  {
    hide Pow, Digits, Point, Lead, Trail, Limit, Unit, Quot, Rem, Num, Strip, Fixed, PadStart;
    var w, f := Lead(Unsigned(s)), Trail(Unsigned(s));
    MagnitudeBound(s);
    DigitsNum(w);
    Rejoin(s);
    NumPadEnd(f);
    FixedNum(PadEnd(f, PLACES));
    PadStartUnit(Magnitude(s));
    StripPadEnd(f, PLACES);
  }

  lemma PadStartUnit(m: nat)
    ensures PadStart(Digits(Rem(m)), PLACES) == Fixed(Rem(m), PLACES)
  {
    hide Digits, Fixed, PadStart;
    PadStartFixed(Rem(m), PLACES);
  }

  lemma ZeroText(s: string)
    requires Canonical(s) && Negative(s)
    ensures Magnitude(s) > 0
  {
    hide Pow, Digits, Point, Lead, Trail, Limit, Quot, Rem, Num, Strip, Fixed, PadStart;
    var w, f := Lead(Unsigned(s)), Trail(Unsigned(s));
    Rejoin(s);
    NumPadEnd(f);
    StripPadEnd(f, PLACES);
    StripIsEmpty(PadEnd(f, PLACES));
    assert f == [] ==> s == "-" + w;
    if w[0] != '0' {
      Positive(w);
      Times(Unit(), 1, Num(w));
    } else {
      assert |w| == 1;
      assert w == "0";
    }
  }

  /** Printing the value of an accepted text gives that text back exactly when it is canonical. */
  lemma PlainOfUnits(s: string)
    requires Accepts(s)
    ensures Plain(Units(s)) == s <==> Canonical(s)
    ensures Canonical(Plain(Units(s))) && Plain(Units(Plain(Units(s)))) == Plain(Units(s))
  {
    hide Pow, Digits, Point, Lead, Trail, Limit, Unit, Quot, Rem, Num, Strip, Fixed, PadStart, Accepts, Plain, Canonical;
    MagnitudeBound(s);
    UnitsOfPlain(Units(s));
    PlainCanonical(Units(s));
    if Canonical(s) {
      CanonicalPlain(s);
    }
  }

  lemma CanonicalPlain(s: string)
    requires Canonical(s)
    ensures Plain(Units(s)) == s
  {
    hide Pow, Digits, Point, Lead, Trail, Limit, Unit, Quot, Rem, Num, Strip, Fixed, PadStart, Accepts, PlainMagnitude;
    PlainOfMagnitude(s);
    Rejoin(s);
    if Negative(s) {
      ZeroText(s);
    }
  }

  lemma PlainCanonical(v: int)
    requires Abs(v) < Limit()
    ensures Canonical(Plain(v))
  {
    hide Pow, Digits, Fraction, Accepts, Limit, Unit, Quot, Rem, Plain, Canonical, Join, Units;
    var m := Abs(v);
    PlainFits(v);
    SignedPlain(v);
    FractionFacts(m);
    AcceptsJoin(Plain(v), Digits(Quot(m)), Fraction(m));
    DigitsShape(Quot(m));
    UnitsOfPlain(v);
    MinusZero();
  }

  lemma MinusZero()
    ensures Accepts("-0") && Units("-0") == 0
  {
    hide Pow;
    assert Unsigned("-0") == "0" && Point("0") == 1 && Lead("0") == "0" && Trail("0") == [];
    assert "0" == Zeros(1) by { assert Zeros(0) == []; }
    NumZeros(1);
    NumZeros(PLACES);
    assert PadEnd([], PLACES) == Zeros(PLACES);
  }

  /** The net of two accepted texts is exact, and fits the grammar when it stays within the limit. */
  lemma NetExact(a: string, b: string)
    requires Accepts(a) && Accepts(b)
    ensures var n := Plain(Units(a) + Units(b));
      (Accepts(n) <==> Abs(Units(a) + Units(b)) < Limit()) && (Accepts(n) ==> Units(n) == Units(a) + Units(b))
  {
    hide Plain, Units, Accepts, Limit, Pow;
    PlainFits(Units(a) + Units(b));
    if Abs(Units(a) + Units(b)) < Limit() {
      UnitsOfPlain(Units(a) + Units(b));
    }
  }

  /** Two accepted texts whose net leaves the grammar: the largest one, twice. */
  lemma NetLeavesGrammar() returns (a: string)
    ensures Accepts(a) && !Accepts(Plain(Units(a) + Units(a)))
  {
    hide Plain, Units, Accepts, Pow;
    a := Plain(Limit() - 1);
    assert Limit() > 1 by { LimitLarge(); }
    PlainFits(Limit() - 1);
    UnitsOfPlain(Limit() - 1);
    NetExact(a, a);
  }

  lemma LimitLarge()
    ensures Limit() > 1
  {
    assert Pow(PLACES + WHOLE) == 10 * Pow(PLACES + WHOLE - 1);
  }
}
