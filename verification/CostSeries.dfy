/**
  The billing chart (crates/costs/src/aggregate.rs): buckets become points, and no money is lost
  or counted twice on the way. Amounts are integer decimal units; adding two amounts fails when
  the sum leaves the bound, as `BoundedDecimal.AddExact` proves of the decimals they stand for.
 */
module CostSeries {
  import opened Order
  import opened Fallible
  import Amount

  type Day = int

  datatype Money = Money(amount: int, credits: int)

  const ZERO: Money := Money(0, 0)

  function Plus(a: Money, b: Money): (r: Money) { Money(a.amount + b.amount, a.credits + b.credits) }

  /** `Amount::add`. */
  function Add(a: int, b: int): (r: Result<int>)
    ensures r == if Fits(a + b) then Ok(a + b) else Err
  {
    if Amount.Abs(a + b) < Amount.Limit() then Ok(a + b) else Err
  }

  predicate Fits(v: int) { Amount.Abs(v) < Amount.Limit() }

  predicate MoneyFits(m: Money) { Fits(m.amount) && Fits(m.credits) }

  function AddMoney(a: Money, b: Money): (r: Result<Money>)
    ensures r == if MoneyFits(Plus(a, b)) then Ok(Plus(a, b)) else Err
  {
    var amount, credits := Add(a.amount, b.amount), Add(a.credits, b.credits);
    if amount.Err? || credits.Err? then Err else Ok(Money(amount.value, credits.value))
  }

  datatype Bucket = Bucket(day: Day, key: string, money: Money)

  datatype Contributor = Contributor(key: string, money: Money)

  datatype Point = Point(date: Day, total: Money, previous: Option<int>, contributors: seq<Contributor>)

  /** The period, and the granularity as the function that names the date of a day. */
  datatype Chart = Chart(from: Day, to: Day, date: Day -> Day)

  predicate IsCurrent(c: Chart, row: Bucket) { row.day >= c.from }

  /** The date a row is drawn at; earlier rows are shifted by the length of the period. */
  function DateOf(c: Chart, row: Bucket): (d: Day) {
    c.date(if IsCurrent(c, row) then row.day else row.day + (c.to - c.from))
  }

  // ---------------------------------------------------------------- sums over the rows

  predicate InSlot(c: Chart, row: Bucket, date: Day, key: string) { IsCurrent(c, row) && DateOf(c, row) == date && row.key == key }

  function SlotSum(c: Chart, rows: seq<Bucket>, date: Day, key: string): (m: Money) {
    if rows == [] then ZERO
    else
      var n := |rows| - 1;
      var rest := SlotSum(c, rows[..n], date, key);
      if InSlot(c, rows[n], date, key) then Plus(rest, rows[n].money) else rest
  }

  function DateSum(c: Chart, rows: seq<Bucket>, date: Day): (m: Money) {
    if rows == [] then ZERO
    else
      var n := |rows| - 1;
      var rest := DateSum(c, rows[..n], date);
      if IsCurrent(c, rows[n]) && DateOf(c, rows[n]) == date then Plus(rest, rows[n].money) else rest
  }

  function CurrentSum(c: Chart, rows: seq<Bucket>): (m: Money) {
    if rows == [] then ZERO
    else
      var n := |rows| - 1;
      var rest := CurrentSum(c, rows[..n]);
      if IsCurrent(c, rows[n]) then Plus(rest, rows[n].money) else rest
  }

  function PriorSum(c: Chart, rows: seq<Bucket>, date: Day): (v: int) {
    if rows == [] then 0
    else
      var n := |rows| - 1;
      PriorSum(c, rows[..n], date) + if !IsCurrent(c, rows[n]) && DateOf(c, rows[n]) == date then rows[n].money.amount else 0
  }

  /** Rows of the period itself. */
  function PeriodSum(c: Chart, rows: seq<Bucket>): (m: Money) {
    if rows == [] then ZERO
    else
      var n := |rows| - 1;
      var rest := PeriodSum(c, rows[..n]);
      if c.from <= rows[n].day < c.to then Plus(rest, rows[n].money) else rest
  }

  // ---------------------------------------------------------------- grouping

  type Groups = map<Day, map<string, Money>>

  function Group(days: Groups, date: Day): (g: map<string, Money>) { if date in days then days[date] else map[] }

  predicate HasRow(c: Chart, rows: seq<Bucket>, date: Day, key: string) {
    exists i | 0 <= i < |rows| :: InSlot(c, rows[i], date, key)
  }

  predicate HasDate(c: Chart, rows: seq<Bucket>, date: Day) {
    exists i | 0 <= i < |rows| :: IsCurrent(c, rows[i]) && DateOf(c, rows[i]) == date
  }

  /** The groups hold each slot that has rows, with the sum of its rows. */
  ghost predicate Grouped(c: Chart, rows: seq<Bucket>, days: Groups) {
    && (forall d :: d in days <==> HasDate(c, rows, d))
    && (forall d, k :: d in days ==> (k in days[d] <==> HasRow(c, rows, d, k)))
    && (forall d, k :: d in days && k in days[d] ==> days[d][k] == SlotSum(c, rows, d, k))
  }

  ghost predicate Compared(c: Chart, rows: seq<Bucket>, prior: map<Day, int>) {
    forall d :: (if d in prior then prior[d] else 0) == PriorSum(c, rows, d)
  }

  lemma HasRowPush(c: Chart, rows: seq<Bucket>, i: nat, date: Day, key: string)
    requires i < |rows|
    ensures HasRow(c, rows[..i + 1], date, key) <==> HasRow(c, rows[..i], date, key) || InSlot(c, rows[i], date, key)
    ensures HasDate(c, rows[..i + 1], date)
       <==> HasDate(c, rows[..i], date) || (IsCurrent(c, rows[i]) && DateOf(c, rows[i]) == date)
  {
    hide DateOf;
    assert rows[..i + 1] == rows[..i] + [rows[i]];
    if InSlot(c, rows[i], date, key) {
      assert rows[..i + 1][i] == rows[i];
    }
    if HasRow(c, rows[..i], date, key) {
      var j :| 0 <= j < i && InSlot(c, rows[..i][j], date, key);
      assert rows[..i + 1][j] == rows[..i][j];
    }
    if HasRow(c, rows[..i + 1], date, key) {
      var j :| 0 <= j < i + 1 && InSlot(c, rows[..i + 1][j], date, key);
      assert j < i ==> rows[..i][j] == rows[..i + 1][j];
    }
    if HasDate(c, rows[..i], date) {
      var j :| 0 <= j < i && IsCurrent(c, rows[..i][j]) && DateOf(c, rows[..i][j]) == date;
      assert rows[..i + 1][j] == rows[..i][j];
    }
    if HasDate(c, rows[..i + 1], date) {
      var j :| 0 <= j < i + 1 && IsCurrent(c, rows[..i + 1][j]) && DateOf(c, rows[..i + 1][j]) == date;
      assert j < i ==> rows[..i][j] == rows[..i + 1][j];
    }
    if IsCurrent(c, rows[i]) && DateOf(c, rows[i]) == date {
      assert rows[..i + 1][i] == rows[i];
    }
  }

  lemma SumsPush(c: Chart, rows: seq<Bucket>, i: nat, date: Day, key: string)
    requires i < |rows|
    ensures SlotSum(c, rows[..i + 1], date, key)
         == if InSlot(c, rows[i], date, key) then Plus(SlotSum(c, rows[..i], date, key), rows[i].money) else SlotSum(c, rows[..i], date, key)
    ensures PriorSum(c, rows[..i + 1], date)
         == PriorSum(c, rows[..i], date) + if !IsCurrent(c, rows[i]) && DateOf(c, rows[i]) == date then rows[i].money.amount else 0
  {
    hide DateOf;
    assert rows[..i + 1][..i] == rows[..i];
  }

  lemma {:induction false} NoRowNoSum(c: Chart, rows: seq<Bucket>, date: Day, key: string)
    requires !HasRow(c, rows, date, key)
    ensures SlotSum(c, rows, date, key) == ZERO
  {
    if rows != [] {
      var n := |rows| - 1;
      HasRowPush(c, rows, n, date, key);
      assert rows[..n + 1] == rows;
      NoRowNoSum(c, rows[..n], date, key);
    }
  }

  /** Slots and their sums after one more row. */
  ghost predicate SlotsGrow(c: Chart, before: seq<Bucket>, after: seq<Bucket>, row: Bucket) {
    forall d, k :: SlotGrows(c, before, after, row, d, k)
  }

  ghost predicate SlotGrows(c: Chart, before: seq<Bucket>, after: seq<Bucket>, row: Bucket, d: Day, k: string) {
    && (HasRow(c, after, d, k) <==> HasRow(c, before, d, k) || InSlot(c, row, d, k))
    && SlotSum(c, after, d, k) == (if InSlot(c, row, d, k) then Plus(SlotSum(c, before, d, k), row.money) else SlotSum(c, before, d, k))
    && (!HasRow(c, before, d, k) ==> SlotSum(c, before, d, k) == ZERO)
    && (HasRow(c, before, d, k) ==> HasDate(c, before, d))
  }

  /** Dates after one more row. */
  ghost predicate DatesGrow(c: Chart, before: seq<Bucket>, after: seq<Bucket>, row: Bucket) {
    forall d :: DateGrows(c, before, after, row, d)
  }

  ghost predicate DateGrows(c: Chart, before: seq<Bucket>, after: seq<Bucket>, row: Bucket, d: Day) {
    HasDate(c, after, d) <==> HasDate(c, before, d) || (IsCurrent(c, row) && DateOf(c, row) == d)
  }

  lemma RowGrows(c: Chart, rows: seq<Bucket>, i: nat)
    requires i < |rows|
    ensures SlotsGrow(c, rows[..i], rows[..i + 1], rows[i])
    ensures DatesGrow(c, rows[..i], rows[..i + 1], rows[i])
  {
    hide HasRow, HasDate, DateOf, Plus, InSlot, SlotSum;
    var before, after := rows[..i], rows[..i + 1];
    forall d, k
      ensures SlotGrows(c, before, after, rows[i], d, k)
    {
      HasRowPush(c, rows, i, d, k);
      SumsPush(c, rows, i, d, k);
      if !HasRow(c, rows[..i], d, k) {
        NoRowNoSum(c, rows[..i], d, k);
      }
      RowHasDate(c, rows[..i], d, k);
    }
    forall d
      ensures DateGrows(c, before, after, rows[i], d)
    {
      HasRowPush(c, rows, i, d, "");
    }
  }

  /** One current row joins its group. */
  lemma GroupPush(c: Chart, rows: seq<Bucket>, i: nat, days: Groups)
    requires i < |rows| && Grouped(c, rows[..i], days)
    ensures !IsCurrent(c, rows[i]) ==> Grouped(c, rows[..i + 1], days)
    ensures IsCurrent(c, rows[i]) ==>
      var row := rows[i]; var d := DateOf(c, row); var g := Group(days, d);
      Grouped(c, rows[..i + 1], days[d := g[row.key := Plus(if row.key in g then g[row.key] else ZERO, row.money)]])
  {
    hide HasRow, HasDate, DateOf, Plus, Grouped, SlotSum, InSlot, SlotsGrow, DatesGrow;
    RowGrows(c, rows, i);
    if IsCurrent(c, rows[i]) {
      GroupWith(c, rows[..i], rows[..i + 1], rows[i], days);
    } else {
      GroupWithout(c, rows[..i], rows[..i + 1], rows[i], days);
    }
  }

  lemma GroupWithout(c: Chart, before: seq<Bucket>, after: seq<Bucket>, row: Bucket, days: Groups)
    requires Grouped(c, before, days) && !IsCurrent(c, row)
    requires SlotsGrow(c, before, after, row) && DatesGrow(c, before, after, row)
    ensures Grouped(c, after, days)
  {
    hide HasRow, HasDate, DateOf, Plus, SlotSum;
    forall d
      ensures HasDate(c, after, d) <==> HasDate(c, before, d)
    {
      assert DateGrows(c, before, after, row, d);
    }
    forall d, k
      ensures (HasRow(c, after, d, k) <==> HasRow(c, before, d, k)) && SlotSum(c, after, d, k) == SlotSum(c, before, d, k)
    {
      assert SlotGrows(c, before, after, row, d, k);
    }
  }

  lemma RowHasDate(c: Chart, rows: seq<Bucket>, date: Day, key: string)
    ensures HasRow(c, rows, date, key) ==> HasDate(c, rows, date)
  {
    hide DateOf;
  }

  lemma GroupWith(c: Chart, before: seq<Bucket>, after: seq<Bucket>, row: Bucket, days: Groups)
    requires Grouped(c, before, days) && IsCurrent(c, row)
    requires SlotsGrow(c, before, after, row) && DatesGrow(c, before, after, row)
    ensures var d := DateOf(c, row); var g := Group(days, d);
      Grouped(c, after, days[d := g[row.key := Plus(if row.key in g then g[row.key] else ZERO, row.money)]])
  {
    hide HasRow, HasDate, DateOf, Plus, SlotSum;
    var day := DateOf(c, row);
    var g := Group(days, day);
    var grown := days[day := g[row.key := Plus(if row.key in g then g[row.key] else ZERO, row.money)]];
    forall d
      ensures d in grown <==> HasDate(c, after, d)
    {
      assert DateGrows(c, before, after, row, d);
    }
    forall d, k | d in grown
      ensures (k in grown[d] <==> HasRow(c, after, d, k)) && (k in grown[d] ==> grown[d][k] == SlotSum(c, after, d, k))
    {
      assert SlotGrows(c, before, after, row, d, k);
    }
  }

  lemma ComparePush(c: Chart, rows: seq<Bucket>, i: nat, prior: map<Day, int>)
    requires i < |rows| && Compared(c, rows[..i], prior)
    ensures IsCurrent(c, rows[i]) ==> Compared(c, rows[..i + 1], prior)
    ensures !IsCurrent(c, rows[i]) ==>
      var d := DateOf(c, rows[i]);
      Compared(c, rows[..i + 1], prior[d := (if d in prior then prior[d] else 0) + rows[i].money.amount])
  {
    hide DateOf;
    forall d
      ensures PriorSum(c, rows[..i + 1], d)
           == PriorSum(c, rows[..i], d) + if !IsCurrent(c, rows[i]) && DateOf(c, rows[i]) == d then rows[i].money.amount else 0
    {
      SumsPush(c, rows, i, d, "");
    }
    hide PriorSum;
  }

  // ---------------------------------------------------------------- points

  function ContributorSum(cs: seq<Contributor>): (m: Money) {
    if cs == [] then ZERO else Plus(ContributorSum(cs[..|cs| - 1]), cs[|cs| - 1].money)
  }

  function PointSum(ps: seq<Point>): (m: Money) {
    if ps == [] then ZERO else Plus(PointSum(ps[..|ps| - 1]), ps[|ps| - 1].total)
  }

  /** A point: its contributors in key order, one per slot of its date, and their sum. */
  ghost predicate IsPoint(c: Chart, rows: seq<Bucket>, previousComplete: bool, p: Point) {
    && p.total == ContributorSum(p.contributors)
    && p.previous == (if previousComplete then Some(PriorSum(c, rows, p.date)) else None)
    && (forall i, j :: 0 <= i < j < |p.contributors| ==>
          Less(p.contributors[i].key, p.contributors[j].key) && p.contributors[i].key != p.contributors[j].key)
    && (forall k :: HasRow(c, rows, p.date, k) <==> exists i :: 0 <= i < |p.contributors| && p.contributors[i].key == k)
    && (forall i :: 0 <= i < |p.contributors| ==> p.contributors[i].money == SlotSum(c, rows, p.date, p.contributors[i].key))
  }

  /** The points of the chart: one per date with current rows, in order. */
  ghost predicate IsSeries(c: Chart, rows: seq<Bucket>, previousComplete: bool, ps: seq<Point>) {
    && (forall i, j :: 0 <= i < j < |ps| ==> ps[i].date < ps[j].date)
    && (forall d :: HasDate(c, rows, d) <==> exists i :: 0 <= i < |ps| && ps[i].date == d)
    && (forall i :: 0 <= i < |ps| ==> IsPoint(c, rows, previousComplete, ps[i]))
  }

  /** Row `i` finds room: the sum it joins, of the rows so far, is within the amount bound. */
  predicate RowFits(c: Chart, rows: seq<Bucket>, i: nat)
    requires i < |rows|
  {
    if IsCurrent(c, rows[i]) then MoneyFits(SlotSum(c, rows[..i + 1], DateOf(c, rows[i]), rows[i].key))
    else Fits(PriorSum(c, rows[..i + 1], DateOf(c, rows[i])))
  }

  predicate RowsFit(c: Chart, rows: seq<Bucket>, n: nat)
    requires n <= |rows|
  {
    forall i :: 0 <= i < n ==> RowFits(c, rows, i)
  }

  /** What the loop adds up for a row is the sum of the rows so far. */
  lemma SumNow(c: Chart, rows: seq<Bucket>, i: nat, days: Groups, prior: map<Day, int>)
    requires i < |rows| && Grouped(c, rows[..i], days) && Compared(c, rows[..i], prior)
    ensures var row := rows[i]; var day := DateOf(c, row); var g := Group(days, day);
      if IsCurrent(c, row) then Plus(if row.key in g then g[row.key] else ZERO, row.money) == SlotSum(c, rows[..i + 1], day, row.key)
      else (if day in prior then prior[day] else 0) + row.money.amount == PriorSum(c, rows[..i + 1], day)
  {
    hide HasRow, HasDate, DateOf, SlotSum, PriorSum;
    var row := rows[i];
    var day := DateOf(c, row);
    SumsPush(c, rows, i, day, row.key);
    RowHasDate(c, rows[..i], day, row.key);
    if !HasRow(c, rows[..i], day, row.key) {
      NoRowNoSum(c, rows[..i], day, row.key);
    }
  }

  /** The first loop of `series`. */
  method GroupRows(c: Chart, rows: seq<Bucket>) returns (ok: bool, days: Groups, prior: map<Day, int>)
    ensures ok ==> Grouped(c, rows, days) && Compared(c, rows, prior)
    ensures ok <==> RowsFit(c, rows, |rows|)
  {
    hide Grouped, Compared, DateOf, SlotSum, PriorSum, MoneyFits, Fits;
    days, prior := map[], map[];
    Empty(c);
    for i := 0 to |rows|
      invariant Grouped(c, rows[..i], days) && Compared(c, rows[..i], prior)
      invariant RowsFit(c, rows, i)
    {
      var row := rows[i];
      var day := DateOf(c, row);
      SumNow(c, rows, i, days, prior);
      GroupPush(c, rows, i, days);
      ComparePush(c, rows, i, prior);
      if IsCurrent(c, row) {
        var group := Group(days, day);
        var sum := AddMoney(if row.key in group then group[row.key] else ZERO, row.money);
        if sum.Err? {
          assert !RowFits(c, rows, i);
          return false, days, prior;
        }
        days := days[day := group[row.key := sum.value]];
      } else {
        var sum := Add(if day in prior then prior[day] else 0, row.money.amount);
        if sum.Err? {
          assert !RowFits(c, rows, i);
          return false, days, prior;
        }
        prior := prior[day := sum.value];
      }
    }
    assert rows[..|rows|] == rows;
    ok := true;
  }

  lemma Empty(c: Chart)
    ensures Grouped(c, [], map[]) && Compared(c, [], map[])
  {
  }

  /** The contributors of a group, listed by key. */
  ghost predicate ListsGroup(cs: seq<Contributor>, group: map<string, Money>) {
    && |cs| == |group|
    && (forall i, j :: 0 <= i < j < |cs| ==> Less(cs[i].key, cs[j].key) && cs[i].key != cs[j].key)
    && (forall k :: k in group <==> exists i :: 0 <= i < |cs| && cs[i].key == k)
    && (forall i :: 0 <= i < |cs| ==> cs[i].key in group && cs[i].money == group[cs[i].key])
  }

  lemma ContributorPush(cs: seq<Contributor>, x: Contributor)
    ensures ContributorSum(cs + [x]) == Plus(ContributorSum(cs), x.money)
  {
    assert (cs + [x])[..|cs|] == cs;
  }

  /** The contributors of a group in key order. */
  ghost function GroupList(group: map<string, Money>): (cs: seq<Contributor>)
    ensures |cs| == |group|
    ensures forall i :: 0 <= i < |cs| ==>
      Keys(group.Keys)[i] in group && cs[i] == Contributor(Keys(group.Keys)[i], group[Keys(group.Keys)[i]])
  {
    var keys := Keys(group.Keys);
    seq(|group|, i requires 0 <= i < |group| => assert keys[i] in keys; Contributor(keys[i], group[keys[i]]))
  }

  /** Every partial sum of the first `n` is within the amount bound. */
  ghost predicate ListFits(cs: seq<Contributor>, n: nat)
    requires n <= |cs|
  {
    forall m :: 0 < m <= n ==> MoneyFits(ContributorSum(cs[..m]))
  }

  lemma PartialSum(cs: seq<Contributor>, i: nat)
    requires i < |cs|
    ensures ContributorSum(cs[..i + 1]) == Plus(ContributorSum(cs[..i]), cs[i].money)
    ensures ListFits(cs, i + 1) <==> ListFits(cs, i) && MoneyFits(ContributorSum(cs[..i + 1]))
  {
    hide MoneyFits;
    assert cs[..i + 1] == cs[..i] + [cs[i]];
    ContributorPush(cs[..i], cs[i]);
  }

  lemma {:induction false} FitsThroughout(cs: seq<Contributor>, i: nat, n: nat)
    requires i <= n <= |cs| && ListFits(cs, n)
    ensures ListFits(cs, i)
  {
    hide MoneyFits;
  }

  /** The second loop, one date: its contributors in key order and their total. */
  method MakePoint(date: Day, group: map<string, Money>, previous: Option<int>) returns (r: Result<Point>)
    ensures r.Ok? ==> r.value.date == date && r.value.previous == previous
    ensures r.Ok? ==> r.value.total == ContributorSum(r.value.contributors) && ListsGroup(r.value.contributors, group)
    ensures r.Ok? <==> ListFits(GroupList(group), |group|)
  {
    hide ListsGroup, ContributorSum, Plus, Add, Keys, MoneyFits, ListFits;
    var keys := KeysInOrder(group.Keys);
    var total := ZERO;
    var contributors: seq<Contributor> := [];
    ghost var all := GroupList(group);
    NothingListed(all);
    KeysOf(group);
    for i := 0 to |keys|
      invariant contributors == all[..i] && total == ContributorSum(all[..i]) && ListFits(all, i)
    {
      PartialSum(all, i);
      var sum := AddMoney(total, group[keys[i]]);
      if sum.Err? {
        if ListFits(all, |all|) {
          FitsThroughout(all, i + 1, |all|);
        }
        return Err;
      }
      contributors := contributors + [Contributor(keys[i], group[keys[i]])];
      total := sum.value;
    }
    assert all[..|all|] == all;
    GroupListed(group);
    return Ok(Point(date, total, previous, contributors));
  }

  lemma NothingListed(cs: seq<Contributor>)
    ensures cs[..0] == [] && ContributorSum(cs[..0]) == ZERO && ListFits(cs, 0)
  {
  }

  lemma GroupListed(group: map<string, Money>)
    ensures ListsGroup(GroupList(group), group)
  {
    hide Less, Keys;
    var keys, cs := Keys(group.Keys), GroupList(group);
    forall k | k in group
      ensures exists i :: 0 <= i < |cs| && cs[i].key == k
    {
      var i :| 0 <= i < |keys| && keys[i] == k;
      assert cs[i].key == k;
    }
  }

  predicate Earlier(a: Day, b: Day) { a < b }

  lemma EarlierStrictTotal()
    ensures StrictTotal(Earlier)
  {
  }

  ghost predicate DateList(dates: seq<Day>, all: set<Day>) {
    && (forall d :: d in dates <==> d in all)
    && forall i, j :: 0 <= i < j < |dates| ==> dates[i] < dates[j]
  }

  method ListDates(all: set<Day>) returns (dates: seq<Day>)
    ensures DateList(dates, all)
  {
    EarlierStrictTotal();
    dates := InOrder(all, Earlier);
  }

  lemma PointOf(c: Chart, rows: seq<Bucket>, previousComplete: bool, days: Groups, p: Point)
    requires Grouped(c, rows, days) && p.date in days && ListsGroup(p.contributors, days[p.date])
    requires p.total == ContributorSum(p.contributors)
    requires p.previous == if previousComplete then Some(PriorSum(c, rows, p.date)) else None
    ensures IsPoint(c, rows, previousComplete, p)
  {
    hide SlotSum, HasRow, HasDate, ContributorSum, PriorSum;
  }

  function SlotKeys(c: Chart, rows: seq<Bucket>, date: Day): (r: set<string>) {
    set i | 0 <= i < |rows| && IsCurrent(c, rows[i]) && DateOf(c, rows[i]) == date :: rows[i].key
  }

  /** The contributors of a date in key order, each with the money of its slot. */
  ghost function SlotList(c: Chart, rows: seq<Bucket>, date: Day): (cs: seq<Contributor>) {
    var keys := Keys(SlotKeys(c, rows, date));
    seq(|keys|, i requires 0 <= i < |keys| => Contributor(keys[i], SlotSum(c, rows, date, keys[i])))
  }

  ghost predicate DateFits(c: Chart, rows: seq<Bucket>, date: Day) {
    ListFits(SlotList(c, rows, date), |SlotList(c, rows, date)|)
  }

  lemma GroupIsSlots(c: Chart, rows: seq<Bucket>, days: Groups, date: Day)
    requires Grouped(c, rows, days) && date in days
    ensures DateFits(c, rows, date) <==> ListFits(GroupList(days[date]), |days[date]|)
  {
    hide ListFits, SlotSum, DateOf, Keys, HasDate;
    forall k
      ensures k in SlotKeys(c, rows, date) <==> HasRow(c, rows, date, k)
    {
    }
    assert days[date].Keys == SlotKeys(c, rows, date);
    KeysOf(days[date]);
    assert GroupList(days[date]) == SlotList(c, rows, date);
  }

  lemma KeysOf(group: map<string, Money>)
    ensures |Keys(group.Keys)| == |group| && forall k :: k in Keys(group.Keys) <==> k in group
  {
    hide Less;
  }

  /** Nothing overflows: the sum each row joins, and the running totals of each date in key order. */
  ghost predicate ChartFits(c: Chart, rows: seq<Bucket>) {
    RowsFit(c, rows, |rows|) && forall d :: HasDate(c, rows, d) ==> DateFits(c, rows, d)
  }

  /** `series`: the points of the chart, exactly when every partial sum is within the amount bound. */
  method Series(c: Chart, rows: seq<Bucket>, previousComplete: bool) returns (r: Result<seq<Point>>)
    ensures r.Ok? ==> IsSeries(c, rows, previousComplete, r.value)
    ensures r.Ok? <==> ChartFits(c, rows)
  {
    hide Grouped, Compared, IsPoint, DateList, RowsFit, DateFits, ListFits, SlotList, GroupList, HasDate;
    var ok, days, prior := GroupRows(c, rows);
    if !ok {
      return Err;
    }
    GroupDates(c, rows, days);
    var dates := ListDates(days.Keys);
    var points: seq<Point> := [];
    for i := 0 to |dates|
      invariant |points| == i && forall j :: 0 <= j < i ==> points[j].date == dates[j] && IsPoint(c, rows, previousComplete, points[j])
      invariant forall j :: 0 <= j < i ==> DateFits(c, rows, dates[j])
    {
      DateIn(dates, days.Keys, i);
      var date := dates[i];
      PriorOf(c, rows, prior, date);
      GroupIsSlots(c, rows, days, date);
      var p := MakePoint(date, days[date], if previousComplete then Some(if date in prior then prior[date] else 0) else None);
      if p.Err? {
        assert HasDate(c, rows, date) && !DateFits(c, rows, date);
        return Err;
      }
      PointOf(c, rows, previousComplete, days, p.value);
      points := points + [p.value];
    }
    SeriesOf(c, rows, previousComplete, days, dates, points);
    DatesAll(dates, days.Keys);
    return Ok(points);
  }

  lemma GroupDates(c: Chart, rows: seq<Bucket>, days: Groups)
    requires Grouped(c, rows, days)
    ensures forall d :: d in days <==> HasDate(c, rows, d)
  {
    hide HasDate, HasRow, SlotSum;
  }

  lemma DatesAll(dates: seq<Day>, all: set<Day>)
    requires DateList(dates, all)
    ensures forall d :: d in all ==> exists j :: 0 <= j < |dates| && dates[j] == d
  {
  }

  lemma DateIn(dates: seq<Day>, all: set<Day>, i: nat)
    requires DateList(dates, all) && i < |dates|
    ensures dates[i] in all
  {
    assert dates[i] in dates;
  }

  lemma PriorOf(c: Chart, rows: seq<Bucket>, prior: map<Day, int>, date: Day)
    requires Compared(c, rows, prior)
    ensures (if date in prior then prior[date] else 0) == PriorSum(c, rows, date)
  {
    hide PriorSum;
  }

  lemma SeriesOf(c: Chart, rows: seq<Bucket>, previousComplete: bool, days: Groups, dates: seq<Day>, points: seq<Point>)
    requires Grouped(c, rows, days) && DateList(dates, days.Keys) && |points| == |dates|
    requires forall j :: 0 <= j < |points| ==> points[j].date == dates[j] && IsPoint(c, rows, previousComplete, points[j])
    ensures IsSeries(c, rows, previousComplete, points)
  {
    hide IsPoint, HasDate, HasRow, SlotSum;
    forall d | HasDate(c, rows, d)
      ensures exists i :: 0 <= i < |points| && points[i].date == d
    {
      var i :| 0 <= i < |dates| && dates[i] == d;
      assert points[i].date == d;
    }
    forall i | 0 <= i < |points|
      ensures HasDate(c, rows, points[i].date)
    {
      assert dates[i] in dates;
    }
  }
}
