/** The reduction of crates/history/src/cost_read.rs: grouped query rows are pushed into buckets. */
module CostReduction {
  import opened Order
  import opened Fallible
  import Amount
  import opened CostSeries
  import opened CostSeriesProofs

  type Slot = (Day, string)

  /** What the two grouped queries return: a row per day and label, with its sums. */
  function Grouping(rows: seq<Charge>, top: set<string>): (g: map<Slot, Money>) {
    if rows == [] then map[]
    else
      var n := |rows| - 1;
      var rest := Grouping(rows[..n], top);
      var slot := (rows[n].day, Label(top, rows[n]));
      rest[slot := Plus(if slot in rest then rest[slot] else ZERO, Worth(rows[n]))]
  }

  lemma {:induction false} GroupingIs(rows: seq<Charge>, top: set<string>, slot: Slot)
    ensures slot in Grouping(rows, top) ==> Grouping(rows, top)[slot] == LabelSum(rows, top, slot.0, slot.1)
    ensures slot !in Grouping(rows, top) ==> LabelSum(rows, top, slot.0, slot.1) == ZERO
    ensures slot in Grouping(rows, top) ==> slot.1 in top || slot.1 == OTHER
  {
    hide Plus, Worth;
    if rows != [] {
      GroupingIs(rows[..|rows| - 1], top, slot);
    }
  }

  lemma {:induction false} GroupingHas(rows: seq<Charge>, top: set<string>, i: nat)
    requires i < |rows|
    ensures (rows[i].day, Label(top, rows[i])) in Grouping(rows, top)
  {
    hide Label;
    var n := |rows| - 1;
    if i < n {
      GroupingHas(rows[..n], top, i);
    }
  }

  function SlotOf(b: Bucket): (s: Slot) { (b.day, b.key) }

  /** Buckets that list the slots in `done`, each once. */
  ghost predicate Pushed(groups: map<Slot, Money>, done: set<Slot>, bs: seq<Bucket>) {
    && (forall s :: s in done ==> s in groups && Covered(bs, s.0, s.1))
    && (forall i :: 0 <= i < |bs| ==> SlotOf(bs[i]) in done && bs[i].money == groups[SlotOf(bs[i])])
    && DistinctSlots(bs)
  }

  lemma PushOne(groups: map<Slot, Money>, done: set<Slot>, bs: seq<Bucket>, s: Slot)
    requires Pushed(groups, done, bs) && s in groups && s !in done
    ensures Pushed(groups, done + {s}, bs + [Bucket(s.0, s.1, groups[s])])
  {
    var after := bs + [Bucket(s.0, s.1, groups[s])];
    forall i | 0 <= i < |bs|
      ensures after[i] == bs[i] && (bs[i].day != s.0 || bs[i].key != s.1)
    {
      assert SlotOf(bs[i]) in done;
    }
    forall t | t in done + {s}
      ensures Covered(after, t.0, t.1)
    {
      CoveredGrows(bs, Bucket(s.0, s.1, groups[s]), t.0, t.1);
    }
    hide Covered;
  }

  lemma CoveredGrows(bs: seq<Bucket>, b: Bucket, day: Day, key: string)
    ensures Covered(bs, day, key) || (b.day == day && b.key == key) ==> Covered(bs + [b], day, key)
  {
    var after := bs + [b];
    assert after[|bs|] == b;
    if Covered(bs, day, key) {
      var j :| 0 <= j < |bs| && bs[j].day == day && bs[j].key == key;
      assert after[j] == bs[j];
    }
  }

  predicate AllFit(groups: map<Slot, Money>, slots: set<Slot>) {
    forall s :: s in slots && s in groups ==> MoneyFits(groups[s])
  }

  /** The rows of one query, in whatever order they arrive; an unbounded amount is an error. */
  method PushRows(groups: map<Slot, Money>, slots: set<Slot>, ghost done: set<Slot>, bs0: seq<Bucket>) returns (ok: bool, bs: seq<Bucket>)
    requires Pushed(groups, done, bs0) && slots !! done && forall s :: s in slots ==> s in groups
    ensures ok ==> Pushed(groups, done + slots, bs)
    ensures ok <==> AllFit(groups, slots)
  {
    hide Pushed, MoneyFits;
    bs := bs0;
    var rest := slots;
    ghost var got := done;
    while rest != {}
      invariant got + rest == done + slots && got !! rest && rest <= slots
      invariant Pushed(groups, got, bs)
      invariant AllFit(groups, slots - rest)
      decreases |rest|
    {
      var s :| s in rest;
      if !MoneyFits(groups[s]) {
        return false, bs;
      }
      PushOne(groups, got, bs, s);
      bs := bs + [Bucket(s.0, s.1, groups[s])];
      rest := rest - {s};
      got := got + {s};
    }
    assert got == done + slots;
    ok := true;
  }

  /** The slots of the rows, those of the leading contributors and those of the rest. */
  function Slots(rows: seq<Charge>, top: set<string>, leading: bool): (r: set<Slot>) {
    set i | 0 <= i < |rows| && (Label(top, rows[i]) in top <==> leading) :: (rows[i].day, Label(top, rows[i]))
  }

  /** Neither query returns too many rows, and every sum it returns is within the amount bound. */
  predicate Reducible(rows: seq<Charge>, top: set<string>) {
    && |Slots(rows, top, true)| <= 6400 && |Slots(rows, top, false)| <= 800
    && forall i :: 0 <= i < |rows| ==> MoneyFits(LabelSum(rows, top, rows[i].day, Label(top, rows[i])))
  }

  lemma {:induction false} GroupingFrom(rows: seq<Charge>, top: set<string>, slot: Slot)
    requires slot in Grouping(rows, top)
    ensures exists i :: 0 <= i < |rows| && slot == (rows[i].day, Label(top, rows[i]))
  {
    hide Label, Plus, Worth;
    var n := |rows| - 1;
    if slot == (rows[n].day, Label(top, rows[n])) {
      assert slot == (rows[n].day, Label(top, rows[n]));
    } else {
      GroupingFrom(rows[..n], top, slot);
      var i :| 0 <= i < n && slot == (rows[..n][i].day, Label(top, rows[..n][i]));
      assert rows[..n][i] == rows[i];
    }
  }

  lemma GroupingSlots(rows: seq<Charge>, top: set<string>)
    ensures forall s :: s in Grouping(rows, top) && s.1 in top <==> s in Slots(rows, top, true)
    ensures forall s :: s in Grouping(rows, top) && s.1 !in top <==> s in Slots(rows, top, false)
    ensures AllFit(Grouping(rows, top), Grouping(rows, top).Keys)
       <==> forall i :: 0 <= i < |rows| ==> MoneyFits(LabelSum(rows, top, rows[i].day, Label(top, rows[i])))
  {
    hide Label, Grouping, LabelSum, MoneyFits;
    var groups := Grouping(rows, top);
    forall s | s in groups
      ensures groups[s] == LabelSum(rows, top, s.0, s.1)
      ensures exists i :: 0 <= i < |rows| && s == (rows[i].day, Label(top, rows[i]))
    {
      GroupingIs(rows, top, s);
      GroupingFrom(rows, top, s);
    }
    forall i | 0 <= i < |rows|
      ensures (rows[i].day, Label(top, rows[i])) in groups
    {
      GroupingHas(rows, top, i);
    }
  }

  /** The slots one of the two queries returns. */
  function Asked(groups: map<Slot, Money>, top: set<string>, leading: bool): (r: set<Slot>) {
    set s | s in groups && (s.1 in top <==> leading) :: s
  }

  lemma AskedParts(rows: seq<Charge>, top: set<string>)
    ensures var groups := Grouping(rows, top);
      && Reducible(rows, top) == (|Asked(groups, top, true)| <= 6400 && |Asked(groups, top, false)| <= 800
                                  && AllFit(groups, Asked(groups, top, true)) && AllFit(groups, Asked(groups, top, false)))
      && {} + Asked(groups, top, true) + Asked(groups, top, false) == groups.Keys
      && Asked(groups, top, true) !! Asked(groups, top, false)
  {
    hide Grouping, Label, LabelSum, MoneyFits;
    GroupingSlots(rows, top);
    var groups := Grouping(rows, top);
    assert Asked(groups, top, true) == Slots(rows, top, true);
    assert Asked(groups, top, false) == Slots(rows, top, false);
  }

  /** Buckets of the leading contributors, then one bucket a day for the rest. */
  method Reduce(rows: seq<Charge>, top: set<string>) returns (r: Result<seq<Bucket>>)
    ensures r.Ok? ==> Reduces(rows, top, r.value)
    ensures r.Ok? ==> forall day :: BucketSum(r.value, day) == DaySum(rows, day)
    ensures r.Ok? <==> Reducible(rows, top)
  {
    hide Pushed, Reduces, Grouping, Reducible, AllFit, BucketSum, DaySum;
    var groups := Grouping(rows, top);
    AskedParts(rows, top);
    var leading, other := Asked(groups, top, true), Asked(groups, top, false);
    if |leading| > 6400 || |other| > 800 {
      return Err;
    }
    NothingPushed(groups);
    var ok, buckets := PushRows(groups, leading, {}, []);
    if !ok {
      return Err;
    }
    ok, buckets := PushRows(groups, other, {} + leading, buckets);
    if !ok {
      return Err;
    }
    AllPushed(rows, top, buckets);
    forall day
      ensures BucketSum(buckets, day) == DaySum(rows, day)
    {
      ReductionConserves(rows, top, buckets, day);
    }
    r := Ok(buckets);
  }

  lemma NothingPushed(groups: map<Slot, Money>)
    ensures Pushed(groups, {}, [])
  {
  }

  lemma AllPushed(rows: seq<Charge>, top: set<string>, bs: seq<Bucket>)
    requires Pushed(Grouping(rows, top), Grouping(rows, top).Keys, bs)
    ensures Reduces(rows, top, bs)
  {
    hide LabelSum, Grouping, Label, Covered;
    var groups := Grouping(rows, top);
    forall i | 0 <= i < |bs|
      ensures bs[i].money == LabelSum(rows, top, bs[i].day, bs[i].key) && (bs[i].key in top || bs[i].key == OTHER)
    {
      GroupingIs(rows, top, SlotOf(bs[i]));
    }
    forall i | 0 <= i < |rows|
      ensures Covered(bs, rows[i].day, Label(top, rows[i]))
    {
      GroupingHas(rows, top, i);
      var s := (rows[i].day, Label(top, rows[i]));
      assert s in groups.Keys;
    }
  }

  // ---------------------------------------------------------------- the leading seven

  predicate InPeriod(r: Charge, from: Day, to: Day) { from <= r.day < to }

  /** The contributors with rows in the period. */
  function KeysIn(rows: seq<Charge>, from: Day, to: Day): (r: set<string>) {
    set i | 0 <= i < |rows| && InPeriod(rows[i], from, to) :: rows[i].key
  }

  /** What a contributor was billed in the period. */
  function Billed(rows: seq<Charge>, from: Day, to: Day, key: string): (v: int) {
    if rows == [] then 0
    else
      var n := |rows| - 1;
      Billed(rows[..n], from, to, key) + if InPeriod(rows[n], from, to) && rows[n].key == key then rows[n].billed else 0
  }

  /** Amount descending, then key ascending in the collation of the database. */
  ghost function Heavier(rows: seq<Charge>, from: Day, to: Day, less: (string, string) -> bool): (h: (string, string) -> bool) {
    (a, b) => Billed(rows, from, to, a) > Billed(rows, from, to, b)
              || (Billed(rows, from, to, a) == Billed(rows, from, to, b) && less(a, b))
  }

  lemma HeavierStrictTotal(rows: seq<Charge>, from: Day, to: Day, less: (string, string) -> bool)
    requires StrictTotal(less)
    ensures StrictTotal(Heavier(rows, from, to, less))
  {
    hide Billed;
  }

  /** The first seven contributors of the period in that order. */
  ghost function Leading(rows: seq<Charge>, from: Day, to: Day, less: (string, string) -> bool): (top: set<string>)
    requires StrictTotal(less)
  {
    HeavierStrictTotal(rows, from, to, less);
    var order := Sorted(KeysIn(rows, from, to), Heavier(rows, from, to, less));
    set i | 0 <= i < |order| && i < 7 :: order[i]
  }

  lemma {:induction false} PrefixCount(s: seq<string>, n: nat)
    requires n <= |s| && forall i, j :: 0 <= i < j < |s| ==> s[i] != s[j]
    ensures |set i | 0 <= i < n :: s[i]| == n
  {
    if n > 0 {
      PrefixCount(s, n - 1);
      var fewer := set i | 0 <= i < n - 1 :: s[i];
      assert (set i | 0 <= i < n :: s[i]) == fewer + {s[n - 1]};
    }
  }

  /**
    The leading contributors are seven, or all when there are fewer, and each of them was billed
    at least what any other was, an earlier key winning a tie.
   */
  lemma LeadingLargest(rows: seq<Charge>, from: Day, to: Day, less: (string, string) -> bool)
    requires StrictTotal(less)
    ensures var top := Leading(rows, from, to, less); var all := KeysIn(rows, from, to);
      && top <= all && |top| == (if |all| < 7 then |all| else 7)
      && forall a, b :: a in top && b in all - top ==> Heavier(rows, from, to, less)(a, b)
  {
    hide Billed, KeysIn;
    HeavierStrictTotal(rows, from, to, less);
    var heavier := Heavier(rows, from, to, less);
    var order := Sorted(KeysIn(rows, from, to), heavier);
    var n := if |order| < 7 then |order| else 7;
    forall i, j | 0 <= i < j < |order|
      ensures order[i] != order[j]
    {
      assert heavier(order[i], order[j]) && !heavier(order[i], order[i]);
    }
    PrefixCount(order, n);
    assert Leading(rows, from, to, less) == set i | 0 <= i < n :: order[i];
    forall a, b | a in Leading(rows, from, to, less) && b in KeysIn(rows, from, to) - Leading(rows, from, to, less)
      ensures heavier(a, b)
    {
      var i :| 0 <= i < n && order[i] == a;
      var j :| 0 <= j < |order| && order[j] == b;
    }
  }
}
