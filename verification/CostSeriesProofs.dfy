/** The chart preserves money: through grouping, through the top-seven reduction, at every granularity. */
module CostSeriesProofs {
  import opened Order
  import opened Fallible
  import Amount
  import opened CostSeries

  lemma PlusLaws(a: Money, b: Money, d: Money)
    ensures Plus(Plus(a, b), d) == Plus(Plus(a, d), b) == Plus(a, Plus(b, d)) && Plus(a, ZERO) == a && Plus(ZERO, a) == a
  {
  }

  // ---------------------------------------------------------------- contributors sum to their date

  function KeysSum(c: Chart, rows: seq<Bucket>, date: Day, keys: seq<string>): (m: Money) {
    if keys == [] then ZERO else Plus(KeysSum(c, rows, date, keys[..|keys| - 1]), SlotSum(c, rows, date, keys[|keys| - 1]))
  }

  predicate Distinct<T(==)>(s: seq<T>) { forall i, j :: 0 <= i < j < |s| ==> s[i] != s[j] }

  /** A row adds its money once, to the one key that is its own. */
  lemma {:induction false} KeysSumPush(c: Chart, rows: seq<Bucket>, n: nat, date: Day, keys: seq<string>)
    requires n < |rows| && Distinct(keys)
    ensures KeysSum(c, rows[..n + 1], date, keys)
         == if IsCurrent(c, rows[n]) && DateOf(c, rows[n]) == date && rows[n].key in keys
            then Plus(KeysSum(c, rows[..n], date, keys), rows[n].money) else KeysSum(c, rows[..n], date, keys)
    decreases |keys|
  {
    hide DateOf, SlotSum, Plus;
    if keys != [] {
      var m := |keys| - 1;
      assert keys == keys[..m] + [keys[m]];
      KeysSumPush(c, rows, n, date, keys[..m]);
      SumsPush(c, rows, n, date, keys[m]);
      PlusLaws(KeysSum(c, rows[..n], date, keys[..m]), SlotSum(c, rows[..n], date, keys[m]), rows[n].money);
    }
  }

  lemma {:induction false} NoRowsNoKeys(c: Chart, date: Day, keys: seq<string>)
    ensures KeysSum(c, [], date, keys) == ZERO
  {
    if keys != [] {
      NoRowsNoKeys(c, date, keys[..|keys| - 1]);
    }
  }

  lemma DateSumPush(c: Chart, rows: seq<Bucket>, n: nat, date: Day)
    requires n < |rows|
    ensures DateSum(c, rows[..n + 1], date)
         == if IsCurrent(c, rows[n]) && DateOf(c, rows[n]) == date
             then Plus(DateSum(c, rows[..n], date), rows[n].money)
             else DateSum(c, rows[..n], date)
  {
    hide DateOf;
    assert rows[..n + 1][..n] == rows[..n];
  }

  lemma {:induction false} KeysCover(c: Chart, rows: seq<Bucket>, n: nat, date: Day, keys: seq<string>)
    requires n <= |rows| && Distinct(keys)
    requires forall i :: 0 <= i < |rows| && IsCurrent(c, rows[i]) && DateOf(c, rows[i]) == date ==> rows[i].key in keys
    ensures KeysSum(c, rows[..n], date, keys) == DateSum(c, rows[..n], date)
  {
    hide DateOf, SlotSum, Plus;
    if n == 0 {
      assert rows[..0] == [];
      NoRowsNoKeys(c, date, keys);
    } else {
      KeysCover(c, rows, n - 1, date, keys);
      KeysSumPush(c, rows, n - 1, date, keys);
      DateSumPush(c, rows, n - 1, date);
    }
  }

  function Names(cs: seq<Contributor>): (r: seq<string>)
    ensures |r| == |cs|
  {
    seq(|cs|, i requires 0 <= i < |cs| => cs[i].key)
  }

  lemma {:induction false} ContributorsAreSlots(c: Chart, rows: seq<Bucket>, date: Day, cs: seq<Contributor>)
    requires forall i :: 0 <= i < |cs| ==> cs[i].money == SlotSum(c, rows, date, cs[i].key)
    ensures ContributorSum(cs) == KeysSum(c, rows, date, Names(cs))
  {
    if cs != [] {
      var n := |cs| - 1;
      ContributorsAreSlots(c, rows, date, cs[..n]);
      assert Names(cs)[..n] == Names(cs[..n]);
    }
  }

  lemma InSlotHasRow(c: Chart, rows: seq<Bucket>, i: nat)
    requires i < |rows| && IsCurrent(c, rows[i])
    ensures HasRow(c, rows, DateOf(c, rows[i]), rows[i].key) && HasDate(c, rows, DateOf(c, rows[i]))
  {
    assert InSlot(c, rows[i], DateOf(c, rows[i]), rows[i].key);
  }

  /** The total of a point is the money of all rows of its date. */
  lemma PointIsDateSum(c: Chart, rows: seq<Bucket>, previousComplete: bool, p: Point)
    requires IsPoint(c, rows, previousComplete, p)
    ensures p.total == DateSum(c, rows, p.date)
  {
    hide SlotSum, DateSum, ContributorSum, KeysSum, PriorSum, Less;
    var keys := Names(p.contributors);
    ContributorsAreSlots(c, rows, p.date, p.contributors);
    forall i | 0 <= i < |rows| && IsCurrent(c, rows[i]) && DateOf(c, rows[i]) == p.date
      ensures rows[i].key in keys
    {
      InSlotHasRow(c, rows, i);
      var j :| 0 <= j < |p.contributors| && p.contributors[j].key == rows[i].key;
      assert keys[j] == rows[i].key;
    }
    KeysCover(c, rows, |rows|, p.date, keys);
    assert rows[..|rows|] == rows;
  }

  // ---------------------------------------------------------------- dates sum to the chart

  function DatesSum(c: Chart, rows: seq<Bucket>, dates: seq<Day>): (m: Money) {
    if dates == [] then ZERO else Plus(DatesSum(c, rows, dates[..|dates| - 1]), DateSum(c, rows, dates[|dates| - 1]))
  }

  lemma {:induction false} DatesSumPush(c: Chart, rows: seq<Bucket>, n: nat, dates: seq<Day>)
    requires n < |rows| && Distinct(dates)
    ensures DatesSum(c, rows[..n + 1], dates)
         == if IsCurrent(c, rows[n]) && DateOf(c, rows[n]) in dates
             then Plus(DatesSum(c, rows[..n], dates), rows[n].money)
             else DatesSum(c, rows[..n], dates)
    decreases |dates|
  {
    hide DateOf, DateSum, Plus;
    if dates != [] {
      var m := |dates| - 1;
      assert dates == dates[..m] + [dates[m]];
      DatesSumPush(c, rows, n, dates[..m]);
      DateSumPush(c, rows, n, dates[m]);
      PlusLaws(DatesSum(c, rows[..n], dates[..m]), DateSum(c, rows[..n], dates[m]), rows[n].money);
    }
  }

  lemma {:induction false} NoRowsNoDates(c: Chart, dates: seq<Day>)
    ensures DatesSum(c, [], dates) == ZERO
  {
    if dates != [] {
      NoRowsNoDates(c, dates[..|dates| - 1]);
    }
  }

  lemma CurrentSumPush(c: Chart, rows: seq<Bucket>, n: nat)
    requires n < |rows|
    ensures CurrentSum(c, rows[..n + 1]) == if IsCurrent(c, rows[n]) then Plus(CurrentSum(c, rows[..n]), rows[n].money) else CurrentSum(c, rows[..n])
  {
    assert rows[..n + 1][..n] == rows[..n];
  }

  lemma {:induction false} DatesCover(c: Chart, rows: seq<Bucket>, n: nat, dates: seq<Day>)
    requires n <= |rows| && Distinct(dates)
    requires forall i :: 0 <= i < |rows| && IsCurrent(c, rows[i]) ==> DateOf(c, rows[i]) in dates
    ensures DatesSum(c, rows[..n], dates) == CurrentSum(c, rows[..n])
  {
    hide DateOf, DateSum, Plus;
    if n == 0 {
      assert rows[..0] == [];
      NoRowsNoDates(c, dates);
    } else {
      DatesCover(c, rows, n - 1, dates);
      DatesSumPush(c, rows, n - 1, dates);
      CurrentSumPush(c, rows, n - 1);
    }
  }

  function Dates(ps: seq<Point>): (r: seq<Day>)
    ensures |r| == |ps|
  {
    seq(|ps|, i requires 0 <= i < |ps| => ps[i].date)
  }

  lemma {:induction false} PointsAreDates(c: Chart, rows: seq<Bucket>, ps: seq<Point>)
    requires forall i :: 0 <= i < |ps| ==> ps[i].total == DateSum(c, rows, ps[i].date)
    ensures PointSum(ps) == DatesSum(c, rows, Dates(ps))
  {
    if ps != [] {
      var n := |ps| - 1;
      PointsAreDates(c, rows, ps[..n]);
      assert Dates(ps)[..n] == Dates(ps[..n]);
    }
  }

  /** The points of a chart carry exactly the money of the current rows, at any granularity. */
  lemma SeriesConserves(c: Chart, rows: seq<Bucket>, previousComplete: bool, ps: seq<Point>)
    requires IsSeries(c, rows, previousComplete, ps)
    ensures PointSum(ps) == CurrentSum(c, rows)
  {
    hide DateSum, DatesSum, PointSum, CurrentSum, IsPoint, HasRow;
    forall i | 0 <= i < |ps|
      ensures ps[i].total == DateSum(c, rows, ps[i].date)
    {
      PointIsDateSum(c, rows, previousComplete, ps[i]);
    }
    PointsAreDates(c, rows, ps);
    var dates := Dates(ps);
    forall i | 0 <= i < |rows| && IsCurrent(c, rows[i])
      ensures DateOf(c, rows[i]) in dates
    {
      InSlotHasRow(c, rows, i);
      var j :| 0 <= j < |ps| && ps[j].date == DateOf(c, rows[i]);
      assert dates[j] == DateOf(c, rows[i]);
    }
    DatesCover(c, rows, |rows|, dates);
    assert rows[..|rows|] == rows;
  }

  predicate EndsBefore(rows: seq<Bucket>, to: Day) { forall i :: 0 <= i < |rows| ==> rows[i].day < to }

  /** Rows before the end of the period are current exactly when they are of the period. */
  lemma {:induction false} CurrentIsPeriod(c: Chart, rows: seq<Bucket>)
    requires EndsBefore(rows, c.to)
    ensures CurrentSum(c, rows) == PeriodSum(c, rows)
  {
    if rows != [] {
      CurrentIsPeriod(c, rows[..|rows| - 1]);
    }
  }

  lemma {:induction false} SamePeriodSum(c: Chart, d: Chart, rows: seq<Bucket>)
    requires c.from == d.from && c.to == d.to
    ensures PeriodSum(c, rows) == PeriodSum(d, rows)
  {
    if rows != [] {
      SamePeriodSum(c, d, rows[..|rows| - 1]);
    }
  }

  /** Two granularities of one period show the same money, and it is the period's total. */
  lemma GranularitiesAgree(c: Chart, d: Chart, rows: seq<Bucket>, previousComplete: bool, ps: seq<Point>, qs: seq<Point>)
    requires c.from == d.from && c.to == d.to && EndsBefore(rows, c.to)
    requires IsSeries(c, rows, previousComplete, ps) && IsSeries(d, rows, previousComplete, qs)
    ensures PointSum(ps) == PointSum(qs) == PeriodSum(c, rows)
  {
    hide IsSeries, PointSum, CurrentSum, PeriodSum;
    SeriesConserves(c, rows, previousComplete, ps);
    SeriesConserves(d, rows, previousComplete, qs);
    CurrentIsPeriod(c, rows);
    CurrentIsPeriod(d, rows);
    SamePeriodSum(c, d, rows);
  }

  /** `total` and `credits`: one pass over the rows of the period, failing when a partial sum leaves the bound. */
  method Totals(c: Chart, rows: seq<Bucket>) returns (total: Result<int>, credits: Result<int>)
    ensures total == if AmountsFit(c, rows, |rows|) then Ok(PeriodSum(c, rows).amount) else Err
    ensures credits == if CreditsFit(c, rows, |rows|) then Ok(PeriodSum(c, rows).credits) else Err
  {
    hide Fits;
    total, credits := Ok(0), Ok(0);
    NothingFits();
    for i := 0 to |rows|
      invariant total == if AmountsFit(c, rows, i) then Ok(PeriodSum(c, rows[..i]).amount) else Err
      invariant credits == if CreditsFit(c, rows, i) then Ok(PeriodSum(c, rows[..i]).credits) else Err
    {
      assert rows[..i + 1][..i] == rows[..i];
      if c.from <= rows[i].day < c.to {
        if total.Ok? {
          total := Add(total.value, rows[i].money.amount);
        }
        if credits.Ok? {
          credits := Add(credits.value, rows[i].money.credits);
        }
      }
    }
    assert rows[..|rows|] == rows;
  }

  predicate AmountsFit(c: Chart, rows: seq<Bucket>, n: nat)
    requires n <= |rows|
  {
    forall i :: 0 <= i <= n ==> Fits(PeriodSum(c, rows[..i]).amount)
  }

  predicate CreditsFit(c: Chart, rows: seq<Bucket>, n: nat)
    requires n <= |rows|
  {
    forall i :: 0 <= i <= n ==> Fits(PeriodSum(c, rows[..i]).credits)
  }

  lemma NothingFits()
    ensures Fits(0)
  {
    Amount.LimitLarge();
  }

  // ---------------------------------------------------------------- the top seven and the rest

  const OTHER: string := "__other__"

  /** A filtered daily row; without an effective charge it carries no credits. */
  datatype Charge = Charge(day: Day, key: string, billed: int, effective: Option<int>)

  function Worth(r: Charge): (m: Money) {
    Money(r.billed, (if r.effective.Some? then r.effective.value else r.billed) - r.billed)
  }

  /** The bucket key of a row in a chart that keeps the contributors in `top`. */
  function Label(top: set<string>, r: Charge): (k: string) { if r.key in top then r.key else OTHER }

  function LabelSum(rows: seq<Charge>, top: set<string>, day: Day, key: string): (m: Money) {
    if rows == [] then ZERO
    else
      var n := |rows| - 1;
      var rest := LabelSum(rows[..n], top, day, key);
      if rows[n].day == day && Label(top, rows[n]) == key then Plus(rest, Worth(rows[n])) else rest
  }

  function DaySum(rows: seq<Charge>, day: Day): (m: Money) {
    if rows == [] then ZERO
    else
      var n := |rows| - 1;
      var rest := DaySum(rows[..n], day);
      if rows[n].day == day then Plus(rest, Worth(rows[n])) else rest
  }

  function BucketSum(bs: seq<Bucket>, day: Day): (m: Money) {
    if bs == [] then ZERO
    else
      var n := |bs| - 1;
      var rest := BucketSum(bs[..n], day);
      if bs[n].day == day then Plus(rest, bs[n].money) else rest
  }

  predicate DistinctSlots(bs: seq<Bucket>) {
    forall i, j :: 0 <= i < j < |bs| ==> bs[i].day != bs[j].day || bs[i].key != bs[j].key
  }

  predicate Covered(bs: seq<Bucket>, day: Day, key: string) { exists j :: 0 <= j < |bs| && bs[j].day == day && bs[j].key == key }

  /** The reduced buckets: one per day and label that has rows, holding the money of its rows. */
  ghost predicate Reduces(rows: seq<Charge>, top: set<string>, bs: seq<Bucket>) {
    && DistinctSlots(bs)
    && (forall i :: 0 <= i < |bs| ==> bs[i].money == LabelSum(rows, top, bs[i].day, bs[i].key) && (bs[i].key in top || bs[i].key == OTHER))
    && (forall i :: 0 <= i < |rows| ==> Covered(bs, rows[i].day, Label(top, rows[i])))
  }

  function SlotsSum(rows: seq<Charge>, top: set<string>, bs: seq<Bucket>, day: Day): (m: Money) {
    if bs == [] then ZERO
    else
      var n := |bs| - 1;
      var rest := SlotsSum(rows, top, bs[..n], day);
      if bs[n].day == day then Plus(rest, LabelSum(rows, top, bs[n].day, bs[n].key)) else rest
  }

  lemma LabelSumPush(rows: seq<Charge>, n: nat, top: set<string>, day: Day, key: string)
    requires n < |rows|
    ensures LabelSum(rows[..n + 1], top, day, key)
         == if rows[n].day == day && Label(top, rows[n]) == key
             then Plus(LabelSum(rows[..n], top, day, key), Worth(rows[n]))
             else LabelSum(rows[..n], top, day, key)
    ensures DaySum(rows[..n + 1], day) == if rows[n].day == day then Plus(DaySum(rows[..n], day), Worth(rows[n])) else DaySum(rows[..n], day)
  {
    assert rows[..n + 1][..n] == rows[..n];
  }

  lemma {:induction false} SlotsSumPush(rows: seq<Charge>, n: nat, top: set<string>, bs: seq<Bucket>, day: Day)
    requires n < |rows| && DistinctSlots(bs)
    ensures SlotsSum(rows[..n + 1], top, bs, day)
         == if rows[n].day == day && Covered(bs, day, Label(top, rows[n]))
            then Plus(SlotsSum(rows[..n], top, bs, day), Worth(rows[n])) else SlotsSum(rows[..n], top, bs, day)
    decreases |bs|
  {
    hide LabelSum, Plus, Worth, Label;
    if bs != [] {
      var m := |bs| - 1;
      SlotsSumPush(rows, n, top, bs[..m], day);
      LabelSumPush(rows, n, top, bs[m].day, bs[m].key);
      PlusLaws(SlotsSum(rows[..n], top, bs[..m], day), LabelSum(rows[..n], top, bs[m].day, bs[m].key), Worth(rows[n]));
      CoveredPush(bs, day, Label(top, rows[n]));
    }
  }

  lemma CoveredPush(bs: seq<Bucket>, day: Day, key: string)
    requires bs != [] && DistinctSlots(bs)
    ensures var m := |bs| - 1;
      && (Covered(bs, day, key) <==> Covered(bs[..m], day, key) || (bs[m].day == day && bs[m].key == key))
      && (Covered(bs[..m], day, key) ==> !(bs[m].day == day && bs[m].key == key))
  {
    var m := |bs| - 1;
    if Covered(bs, day, key) {
      var j :| 0 <= j < |bs| && bs[j].day == day && bs[j].key == key;
      assert j < m ==> bs[..m][j] == bs[j];
    }
    if Covered(bs[..m], day, key) {
      var j :| 0 <= j < m && bs[..m][j].day == day && bs[..m][j].key == key;
      assert bs[j] == bs[..m][j];
    }
  }

  lemma {:induction false} NoChargesNoSlots(top: set<string>, bs: seq<Bucket>, day: Day)
    ensures SlotsSum([], top, bs, day) == ZERO
  {
    if bs != [] {
      NoChargesNoSlots(top, bs[..|bs| - 1], day);
    }
  }

  lemma {:induction false} SlotsCover(rows: seq<Charge>, n: nat, top: set<string>, bs: seq<Bucket>, day: Day)
    requires n <= |rows| && DistinctSlots(bs)
    requires forall i :: 0 <= i < |rows| ==> Covered(bs, rows[i].day, Label(top, rows[i]))
    ensures SlotsSum(rows[..n], top, bs, day) == DaySum(rows[..n], day)
  {
    hide LabelSum, Plus, Worth, Label;
    if n == 0 {
      assert rows[..0] == [];
      NoChargesNoSlots(top, bs, day);
    } else {
      SlotsCover(rows, n - 1, top, bs, day);
      SlotsSumPush(rows, n - 1, top, bs, day);
      LabelSumPush(rows, n - 1, top, day, "");
    }
  }

  lemma {:induction false} BucketsAreSlots(rows: seq<Charge>, top: set<string>, bs: seq<Bucket>, day: Day)
    requires forall i :: 0 <= i < |bs| ==> bs[i].money == LabelSum(rows, top, bs[i].day, bs[i].key)
    ensures BucketSum(bs, day) == SlotsSum(rows, top, bs, day)
  {
    hide LabelSum;
    if bs != [] {
      BucketsAreSlots(rows, top, bs[..|bs| - 1], day);
    }
  }

  /** Per day, the buckets of the leading contributors and the rest hold the money of all filtered rows. */
  lemma ReductionConserves(rows: seq<Charge>, top: set<string>, bs: seq<Bucket>, day: Day)
    requires Reduces(rows, top, bs)
    ensures BucketSum(bs, day) == DaySum(rows, day)
  {
    hide LabelSum, Plus, Worth, Label;
    BucketsAreSlots(rows, top, bs, day);
    SlotsCover(rows, |rows|, top, bs, day);
    assert rows[..|rows|] == rows;
  }

  // ---------------------------------------------------------------- at most eight contributors

  lemma {:induction false} DistinctWithin(s: seq<string>, all: set<string>)
    requires Distinct(s) && forall i :: 0 <= i < |s| ==> s[i] in all
    ensures |s| <= |all|
    decreases |s|
  {
    if s != [] {
      var n := |s| - 1;
      DistinctWithin(s[..n], all - {s[n]});
    }
  }

  /** With seven leading contributors no point shows more than eight. */
  lemma AtMostEight(c: Chart, rows: seq<Charge>, top: set<string>, bs: seq<Bucket>, previousComplete: bool, p: Point)
    requires Reduces(rows, top, bs) && |top| <= 7 && IsPoint(c, bs, previousComplete, p)
    ensures |p.contributors| <= 8
  {
    hide LabelSum, Label, SlotSum, PriorSum, ContributorSum, Less;
    var keys := Names(p.contributors);
    forall i | 0 <= i < |keys|
      ensures keys[i] in top + {OTHER}
    {
      assert p.contributors[i].key == keys[i];
      assert HasRow(c, bs, p.date, keys[i]);
      var j :| 0 <= j < |bs| && InSlot(c, bs[j], p.date, keys[i]);
    }
    DistinctWithin(keys, top + {OTHER});
  }
}
