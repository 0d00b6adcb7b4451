/** Asking for a period and publishing it, in turn, reaches rest within a bound known beforehand. */
module CostScheduleProofs {
  import opened Order
  import opened CostSchedule

  // ---------------------------------------------------------------- what the rows say

  lemma {:induction false} RecentIs(c: Config, rows: seq<Row>, m: Partitions, today: Day)
    requires Queried(c, rows, m, today) && c.retention >= 1
    ensures Recent(rows, today) == if today in m then m[today] else None
  {
    if Seen(rows, today) {
      var i :| 0 <= i < |rows| && rows[i].day == today;
      RecentFinds(rows, today, i);
    } else {
      RecentNone(rows, today);
    }
  }

  lemma {:induction false} RecentFinds(rows: seq<Row>, today: Day, i: nat)
    requires i < |rows| && rows[i].day == today && forall j, k :: 0 <= j < k < |rows| ==> rows[j].day != rows[k].day
    ensures Recent(rows, today) == rows[i].at
    decreases |rows|
  {
    if i > 0 {
      assert rows[0].day != rows[i].day;
      RecentFinds(rows[1..], today, i - 1);
    }
  }

  lemma {:induction false} RecentNone(rows: seq<Row>, today: Day)
    requires !Seen(rows, today)
    ensures Recent(rows, today) == None
  {
    if rows != [] {
      assert rows[0].day != today;
      forall i | 0 <= i < |rows[1..]|
        ensures rows[1..][i].day != today
      {
        assert rows[1..][i] == rows[i + 1];
      }
      RecentNone(rows[1..], today);
    }
  }

  lemma SeenIs(c: Config, rows: seq<Row>, m: Partitions, today: Day, d: Day)
    requires Queried(c, rows, m, today) && Retained(c, today, d)
    ensures Seen(rows, d) <==> d in m
  {
    if Seen(rows, d) {
      var i :| 0 <= i < |rows| && rows[i].day == d;
    }
  }

  /** The scan for a missing day and the measure look at the same day. */
  lemma {:induction false} MissingIs(c: Config, rows: seq<Row>, m: Partitions, today: Day, offset: nat)
    requires Sound(c) && Queried(c, rows, m, today) && offset <= c.backfill
    ensures var d := NewestMissing(c, rows, today, offset); var n := Reach(c, m, today, offset);
      if n == 0 then d == None else d == Some(today + 1 - c.backfill + n - 1) && d.value !in m
    decreases c.backfill - offset
  {
    hide Queried, Seen;
    if offset < c.backfill {
      SeenIs(c, rows, m, today, today - offset);
      MissingIs(c, rows, m, today, offset + 1);
    }
  }

  lemma {:induction false} OldestIs(rows: seq<Row>, now: Time)
    ensures var r := Oldest(rows, now);
      && (r.Some? ==> r.value in rows && Aged(now, r.value))
      && (r.None? ==> forall i :: 0 <= i < |rows| ==> !Aged(now, rows[i]))
      && (r.Some? ==> forall i :: 0 <= i < |rows| && Aged(now, rows[i]) ==> r.value.at.value <= rows[i].at.value)
  {
    hide Aged;
    if rows != [] {
      OldestIs(rows[..|rows| - 1], now);
    }
  }

  // ---------------------------------------------------------------- the measure only shrinks

  /** The days the answer covers: at most seven, or all of the backfill for a wide source. */
  lemma PublishedDays(c: Config, m: Partitions, p: Period, today: Day, now: Time, d: Day)
    ensures d in Published(c, m, p, today, now) <==> d >= today - c.retention && (d in m || p.from <= d < p.to)
    ensures d in Published(c, m, p, today, now) ==> Published(c, m, p, today, now)[d] == if p.from <= d < p.to then Some(now) else m[d]
  {
  }

  lemma PendingShrinks(c: Config, m: Partitions, p: Period, today: Day, now: Time, start: Time)
    requires Sound(c) && now >= start
    ensures Pending(Published(c, m, p, today, now), today, start) <= Pending(m, today, start)
    ensures p.from <= today < p.to ==> Pending(Published(c, m, p, today, now), today, start) == 0
  {
    PublishedDays(c, m, p, today, now, today);
  }

  /** No day inside the backfill is lost, so the newest missing day never moves forward. */
  lemma {:induction false} ReachShrinks(c: Config, m: Partitions, p: Period, today: Day, now: Time, offset: nat)
    requires Sound(c) && offset <= c.backfill
    ensures Reach(c, Published(c, m, p, today, now), today, offset) <= Reach(c, m, today, offset)
    decreases c.backfill - offset
  {
    if offset < c.backfill {
      PublishedDays(c, m, p, today, now, today - offset);
      ReachShrinks(c, m, p, today, now, offset + 1);
    }
  }

  /** Filling the newest missing day and the six before it moves the newest missing day back by seven. */
  lemma {:induction false} ReachDrops(c: Config, m: Partitions, p: Period, today: Day, now: Time, offset: nat, newest: Day)
    requires Sound(c) && offset <= c.backfill
    requires forall d :: newest < d <= today ==> d in m
    requires p.to == newest + 1 && (p.from == today + 1 - c.backfill || p.from == newest - 6)
    ensures var n := Reach(c, Published(c, m, p, today, now), today, offset); n == 0 || n <= newest - 7 - (today + 1 - c.backfill) + 1
    decreases c.backfill - offset
  {
    if offset < c.backfill {
      PublishedDays(c, m, p, today, now, today - offset);
      ReachDrops(c, m, p, today, now, offset + 1, newest);
    }
  }

  lemma {:induction false} ReachNewest(c: Config, m: Partitions, today: Day, offset: nat)
    requires offset <= c.backfill
    ensures forall d :: today + 1 - c.backfill + Reach(c, m, today, offset) - 1 < d <= today - offset ==> d in m
    decreases c.backfill - offset
  {
    if offset < c.backfill {
      ReachNewest(c, m, today, offset + 1);
    }
  }

  lemma UnrefreshedShrinks(c: Config, m: Partitions, p: Period, today: Day, now: Time, start: Time)
    requires now >= start
    ensures Unrefreshed(c, Published(c, m, p, today, now), today, start) <= Unrefreshed(c, m, today, start)
    ensures forall d :: p.from <= d < p.to ==> d !in Unrefreshed(c, Published(c, m, p, today, now), today, start)
  {
    forall d | d in Unrefreshed(c, Published(c, m, p, today, now), today, start)
      ensures d in Unrefreshed(c, m, today, start) && !(p.from <= d < p.to)
    {
      PublishedDays(c, m, p, today, now, d);
    }
  }

  lemma Fewer<T>(a: set<T>, b: set<T>)
    requires a <= b
    ensures |a| <= |b| && (a != b ==> |a| < |b|)
  {
    var rest := b - a;
    assert b == a + rest;
  }

  /** One round within the cadence: its kind's own count drops, and no other grows. */
  lemma RoundShrinks(c: Config, m: Partitions, today: Day, start: Time, r: Round)
    requires Sound(c) && Queried(c, r.rows, m, today) && |r.rows| <= 730
    requires start <= r.asked <= r.published < start + Cadence(c) * SECOND
    ensures var n := After(c, m, today, r); var k := KindOf(c, r.rows, today, r.asked);
      && Pending(n, today, start) + (if k.Recency? then 1 else 0) <= Pending(m, today, start)
      && Weeks(c, n, today) + (if k.Fill? then 1 else 0) <= Weeks(c, m, today)
      && |Unrefreshed(c, n, today, start)| + (if k.Refresh? then 1 else 0) <= |Unrefreshed(c, m, today, start)|
      && (k.Rest? <==> Ask(c, r.rows, today, r.asked) == Nothing) && (k.Rest? ==> n == m)
  {
    hide Queried, Reach, NewestMissing, Oldest, Recent, Unrefreshed, Published, Pending, Seen;
    var a := Ask(c, r.rows, today, r.asked);
    var k := KindOf(c, r.rows, today, r.asked);
    MissingIs(c, r.rows, m, today, 0);
    if a.Import? {
      var n := Published(c, m, a.period, today, r.published);
      PendingShrinks(c, m, a.period, today, r.published, start);
      ReachShrinks(c, m, a.period, today, r.published, 0);
      UnrefreshedShrinks(c, m, a.period, today, r.published, start);
      Fewer(Unrefreshed(c, n, today, start), Unrefreshed(c, m, today, start));
      match k {
        case Recency => RecencyPending(c, m, today, start, r);
        case Fill => FillDrops(c, m, today, r, a.period);
        case Refresh => RefreshDrops(c, m, today, start, r, a.period);
        case Rest =>
      }
    }
  }

  lemma RecencyPending(c: Config, m: Partitions, today: Day, start: Time, r: Round)
    requires Sound(c) && Queried(c, r.rows, m, today) && Stale(c, r.asked, Recent(r.rows, today))
    requires start <= r.asked < start + Cadence(c) * SECOND
    ensures Pending(m, today, start) == 1
  {
    RecentIs(c, r.rows, m, today);
  }

  lemma FillDrops(c: Config, m: Partitions, today: Day, r: Round, p: Period)
    requires Sound(c) && Queried(c, r.rows, m, today)
    requires NewestMissing(c, r.rows, today, 0).Some?
    requires p == Window(c, today + 1 - c.backfill, NewestMissing(c, r.rows, today, 0).value + 1)
    ensures Weeks(c, Published(c, m, p, today, r.published), today) + 1 <= Weeks(c, m, today)
  {
    hide Queried, Reach, NewestMissing, Published;
    MissingIs(c, r.rows, m, today, 0);
    ReachNewest(c, m, today, 0);
    var newest := NewestMissing(c, r.rows, today, 0).value;
    ReachDrops(c, m, p, today, r.published, 0, newest);
  }

  lemma RefreshDrops(c: Config, m: Partitions, today: Day, start: Time, r: Round, p: Period)
    requires Sound(c) && Queried(c, r.rows, m, today) && Oldest(r.rows, r.asked).Some?
    requires start <= r.asked <= r.published < start + Cadence(c) * SECOND
    requires p == Period(Oldest(r.rows, r.asked).value.day, Oldest(r.rows, r.asked).value.day + 1)
    ensures |Unrefreshed(c, Published(c, m, p, today, r.published), today, start)| + 1 <= |Unrefreshed(c, m, today, start)|
  {
    OldestIs(r.rows, r.asked);
    var row := Oldest(r.rows, r.asked).value;
    hide Oldest, Published;
    assert row.day in Unrefreshed(c, m, today, start);
    UnrefreshedShrinks(c, m, p, today, r.published, start);
    assert row.day !in Unrefreshed(c, Published(c, m, p, today, r.published), today, start);
    Fewer(Unrefreshed(c, Published(c, m, p, today, r.published), today, start), Unrefreshed(c, m, today, start));
  }

  // ---------------------------------------------------------------- no question is refused

  lemma {:induction false} RowsBound(rows: seq<Row>, days: set<Day>)
    requires forall i :: 0 <= i < |rows| ==> rows[i].day in days
    requires forall i, j :: 0 <= i < j < |rows| ==> rows[i].day != rows[j].day
    ensures |rows| <= |days|
    decreases |rows|
  {
    if rows != [] {
      var n := |rows| - 1;
      RowsBound(rows[..n], days - {rows[n].day});
    }
  }

  lemma {:induction false} IntervalSize(from: Day, n: nat)
    ensures |Span(Period(from, from + n))| == n
  {
    if n == 0 {
      assert Span(Period(from, from + n)) == {};
    } else {
      IntervalSize(from, n - 1);
      assert Span(Period(from, from + n)) == Span(Period(from, from + n - 1)) + {from + n - 1};
    }
  }

  lemma NotRefused(c: Config, rows: seq<Row>, m: Partitions, today: Day)
    requires Sound(c) && Queried(c, rows, m, today) && Past(m, today)
    ensures |rows| <= 730
  {
    var from := today + 1 - c.retention;
    IntervalSize(from, c.retention);
    RowsBound(rows, Span(Period(from, from + c.retention)));
  }

  lemma PastAfter(c: Config, m: Partitions, today: Day, r: Round)
    requires Sound(c) && Queried(c, r.rows, m, today) && Past(m, today)
    ensures Past(After(c, m, today, r), today)
  {
    var a := Ask(c, r.rows, today, r.asked);
    if a.Import? {
      MissingIs(c, r.rows, m, today, 0);
      OldestIs(r.rows, r.asked);
      hide Recent, Oldest, NewestMissing, Reach;
      assert a.period.to <= today + 1;
    }
  }

  // ---------------------------------------------------------------- the theorem

  function CountKind(c: Config, today: Day, rounds: seq<Round>, n: nat, k: Kind): (t: nat)
    requires n <= |rounds|
  {
    if n == 0 then 0
    else
      var this' := KindOf(c, rounds[n - 1].rows, today, rounds[n - 1].asked) == k;
      CountKind(c, today, rounds, n - 1, k) + if this' then 1 else 0
  }

  lemma {:induction false} RunShrinks(c: Config, m: Partitions, today: Day, start: Time, rounds: seq<Round>, n: nat)
    requires Sound(c) && Past(m, today) && Prompt(c, m, today, start, rounds) && n <= |rounds|
    ensures var s := At(c, m, today, rounds, n);
      && Past(s, today)
      && Pending(s, today, start) + CountKind(c, today, rounds, n, Recency) <= Pending(m, today, start)
      && Weeks(c, s, today) + CountKind(c, today, rounds, n, Fill) <= Weeks(c, m, today)
      && |Unrefreshed(c, s, today, start)| + CountKind(c, today, rounds, n, Refresh) <= |Unrefreshed(c, m, today, start)|
  {
    hide Past, Queried, After, KindOf, Pending, Weeks, Unrefreshed;
    if n > 0 {
      RunShrinks(c, m, today, start, rounds, n - 1);
      var s := At(c, m, today, rounds, n - 1);
      NotRefused(c, rounds[n - 1].rows, s, today);
      RoundShrinks(c, s, today, start, rounds[n - 1]);
      PastAfter(c, s, today, rounds[n - 1]);
    }
  }

  lemma {:induction false} KindsAdd(c: Config, today: Day, rounds: seq<Round>, n: nat)
    requires n <= |rounds|
    ensures CountKind(c, today, rounds, n, Recency) + CountKind(c, today, rounds, n, Fill)
            + CountKind(c, today, rounds, n, Refresh) + CountKind(c, today, rounds, n, Rest) == n
  {
    hide KindOf;
    if n > 0 {
      KindsAdd(c, today, rounds, n - 1);
    }
  }

  function CountRefreshes(c: Config, today: Day, rounds: seq<Round>, n: nat, d: Day): (t: nat)
    requires n <= |rounds|
  {
    if n == 0 then 0
    else CountRefreshes(c, today, rounds, n - 1, d) + if RefreshedDay(c, today, rounds[n - 1]) == Some(d) then 1 else 0
  }

  /** One while the day's partition is retained and not published since the start. */
  function Waiting(c: Config, m: Partitions, today: Day, start: Time, d: Day): (n: nat) {
    if d in Unrefreshed(c, m, today, start) then 1 else 0
  }

  lemma DayShrinks(c: Config, m: Partitions, today: Day, start: Time, r: Round, d: Day)
    requires Sound(c) && Queried(c, r.rows, m, today) && |r.rows| <= 730
    requires start <= r.asked <= r.published < start + Cadence(c) * SECOND
    ensures Waiting(c, After(c, m, today, r), today, start, d) + (if RefreshedDay(c, today, r) == Some(d) then 1 else 0)
         <= Waiting(c, m, today, start, d)
  {
    hide Queried, NewestMissing, Oldest, Recent, Unrefreshed, Published, Seen;
    var a := Ask(c, r.rows, today, r.asked);
    if a.Import? {
      UnrefreshedShrinks(c, m, a.period, today, r.published, start);
      if RefreshedDay(c, today, r) == Some(d) {
        OldestWaits(c, m, today, start, r);
      }
    }
  }

  lemma OldestWaits(c: Config, m: Partitions, today: Day, start: Time, r: Round)
    requires Sound(c) && Queried(c, r.rows, m, today) && Oldest(r.rows, r.asked).Some?
    requires start <= r.asked <= r.published < start + Cadence(c) * SECOND
    ensures Oldest(r.rows, r.asked).value.day in Unrefreshed(c, m, today, start)
  {
    OldestIs(r.rows, r.asked);
  }

  lemma {:induction false} RefreshedOnce(c: Config, m: Partitions, today: Day, start: Time, rounds: seq<Round>, n: nat, d: Day)
    requires Sound(c) && Past(m, today) && Prompt(c, m, today, start, rounds) && n <= |rounds|
    ensures Waiting(c, At(c, m, today, rounds, n), today, start, d) + CountRefreshes(c, today, rounds, n, d) <= Waiting(c, m, today, start, d)
  {
    hide Past, Queried, After, KindOf, Unrefreshed, RefreshedDay, Waiting;
    if n > 0 {
      RefreshedOnce(c, m, today, start, rounds, n - 1, d);
      RunShrinks(c, m, today, start, rounds, n - 1);
      var s := At(c, m, today, rounds, n - 1);
      NotRefused(c, rounds[n - 1].rows, s, today);
      DayShrinks(c, s, today, start, rounds[n - 1], d);
    }
  }

  /**
    Within one cadence, at most one import brings the recent days up to date, at most
    ceil(backfill / 7) fill the backfill, and each partition is refreshed at most once, only if
    it was retained and not published since the start; in any longer series of rounds some
    question is answered with nothing to import.
   */
  lemma ComesToRest(c: Config, m: Partitions, today: Day, start: Time, rounds: seq<Round>)
    requires Sound(c) && Past(m, today) && Prompt(c, m, today, start, rounds)
    ensures var n := |rounds|;
      && CountKind(c, today, rounds, n, Recency) <= 1
      && CountKind(c, today, rounds, n, Fill) <= (c.backfill + 6) / 7
      && CountKind(c, today, rounds, n, Refresh) <= |Unrefreshed(c, m, today, start)|
      && (forall d :: CountRefreshes(c, today, rounds, n, d) <= Waiting(c, m, today, start, d))
      && (n > 1 + (c.backfill + 6) / 7 + |Unrefreshed(c, m, today, start)| ==> CountKind(c, today, rounds, n, Rest) > 0)
  {
    hide Past, Queried, KindOf, Unrefreshed, Prompt, Reach, Waiting, RefreshedDay;
    RunShrinks(c, m, today, start, rounds, |rounds|);
    KindsAdd(c, today, rounds, |rounds|);
    forall d
      ensures CountRefreshes(c, today, rounds, |rounds|, d) <= Waiting(c, m, today, start, d)
    {
      RefreshedOnce(c, m, today, start, rounds, |rounds|, d);
    }
  }

  /**
    There is nothing to import exactly when today's partition is within the cadence, the whole
    backfill is there, and no retained partition is thirty days old.
   */
  lemma RestMeans(c: Config, rows: seq<Row>, m: Partitions, today: Day, now: Time)
    requires Sound(c) && Past(m, today) && Queried(c, rows, m, today)
    ensures Ask(c, rows, today, now) == Nothing <==>
      && today in m && m[today].Some? && !Elapsed(now, m[today].value, Cadence(c) * SECOND)
      && (forall d :: today + 1 - c.backfill <= d <= today ==> d in m)
      && (forall d :: d in m && Retained(c, today, d) ==> !Aged(now, Row(d, m[d])))
  {
    NotRefused(c, rows, m, today);
    RecentIs(c, rows, m, today);
    MissingIs(c, rows, m, today, 0);
    ReachNewest(c, m, today, 0);
    OldestIs(rows, now);
    hide Recent, NewestMissing, Oldest, Reach, Elapsed, Aged;
    AgedRows(c, rows, m, today, now);
  }

  lemma AgedRows(c: Config, rows: seq<Row>, m: Partitions, today: Day, now: Time)
    requires Queried(c, rows, m, today)
    ensures (forall i :: 0 <= i < |rows| ==> !Aged(now, rows[i])) <==> (forall d :: d in m && Retained(c, today, d) ==> !Aged(now, Row(d, m[d])))
  {
    hide Aged;
    if forall i :: 0 <= i < |rows| ==> !Aged(now, rows[i]) {
      forall d | d in m && Retained(c, today, d)
        ensures !Aged(now, Row(d, m[d]))
      {
        assert Seen(rows, d);
        var i :| 0 <= i < |rows| && rows[i].day == d;
        assert rows[i] == Row(d, m[d]);
      }
    }
    if forall d :: d in m && Retained(c, today, d) ==> !Aged(now, Row(d, m[d])) {
      forall i | 0 <= i < |rows|
        ensures !Aged(now, rows[i])
      {
        assert rows[i] == Row(rows[i].day, m[rows[i].day]);
      }
    }
  }
}
