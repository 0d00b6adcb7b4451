/**
  Which billing period to import next (crates/history/src/cost_schedule.rs), and why asking and
  publishing in turn comes to rest: recent days first, then the backfill, then old partitions.
 */
module CostSchedule {
  import opened Order

  type Day = int
  type Time = int                        // nanoseconds

  const SECOND: int := 1_000_000_000
  const DAY: int := 86400 * SECOND

  datatype Row = Row(day: Day, at: Option<Time>)

  datatype Period = Period(from: Day, to: Day)

  /** `wide` marks a source whose one query covers the whole backfill. */
  datatype Config = Config(backfill: nat, retention: nat, interval: nat, wide: bool)

  /** The bounds the configuration is validated against. */
  predicate Sound(c: Config) { 1 <= c.backfill <= 400 && c.backfill <= c.retention <= 730 && 900 <= c.interval <= 86400 }

  function Cadence(c: Config): (seconds: nat) { if c.wide then 86400 else c.interval }

  datatype Answer = Refused | Nothing | Import(period: Period)

  // ---------------------------------------------------------------- one question

  function Recent(rows: seq<Row>, today: Day): (at: Option<Time>) {
    if rows == [] then None else if rows[0].day == today then rows[0].at else Recent(rows[1..], today)
  }

  /** Whole seconds and days elapsed; the clock is never behind a publication here. */
  predicate Elapsed(now: Time, at: Time, span: int) { now - at >= span }

  predicate Stale(c: Config, now: Time, recent: Option<Time>) { recent.None? || Elapsed(now, recent.value, Cadence(c) * SECOND) }

  function Window(c: Config, from: Day, end: Day): (p: Period) {
    Period(if c.wide || end - 7 < from then from else end - 7, end)
  }

  predicate Seen(rows: seq<Row>, day: Day) { exists i | 0 <= i < |rows| :: rows[i].day == day }

  /** The newest day of the backfill, from `offset` days back, that has no partition. */
  function NewestMissing(c: Config, rows: seq<Row>, today: Day, offset: nat): (d: Option<Day>)
    requires offset <= c.backfill
    decreases c.backfill - offset
  {
    if offset == c.backfill then None
    else if !Seen(rows, today - offset) then Some(today - offset)
    else NewestMissing(c, rows, today, offset + 1)
  }

  predicate Aged(now: Time, r: Row): (b: bool)
    ensures b ==> r.at.Some?
  {
    r.at.Some? && Elapsed(now, r.at.value, 30 * DAY)
  }

  /** The first of the longest unrefreshed rows. */
  function Oldest(rows: seq<Row>, now: Time): (r: Option<Row>)
    ensures r.Some? ==> Aged(now, r.value)
  {
    if rows == [] then None
    else
      var n := |rows| - 1;
      var rest := Oldest(rows[..n], now);
      if !Aged(now, rows[n]) then rest
      else if rest.Some? && rest.value.at.value <= rows[n].at.value then rest
      else Some(rows[n])
  }

  /** `cost_next_period` on the rows the query returned. */
  function Ask(c: Config, rows: seq<Row>, today: Day, now: Time): (a: Answer) {
    var from := today + 1 - c.backfill;
    if |rows| > 730 then Refused
    else if Stale(c, now, Recent(rows, today)) then Import(Window(c, from, today + 1))
    else
      var missing := NewestMissing(c, rows, today, 0);
      if missing.Some? then Import(Window(c, from, missing.value + 1))
      else
        var oldest := Oldest(rows, now);
        if oldest.Some? then Import(Period(oldest.value.day, oldest.value.day + 1)) else Nothing
  }

  method NextPeriod(c: Config, rows: seq<Row>, today: Day, now: Time) returns (a: Answer)
    ensures a == Ask(c, rows, today, now)
  {
    hide Seen, Aged, Elapsed, Window;
    if |rows| > 730 {
      return Refused;
    }
    var to := today + 1;
    var from := to - c.backfill;
    if Stale(c, now, Recent(rows, today)) {
      return Import(Window(c, from, to));
    }
    for offset := 0 to c.backfill
      invariant NewestMissing(c, rows, today, offset) == NewestMissing(c, rows, today, 0)
    {
      var day := to - (offset + 1);
      if !Seen(rows, day) {
        return Import(Window(c, from, day + 1));
      }
    }
    var oldest: Option<Row> := None;
    for i := 0 to |rows|
      invariant oldest == Oldest(rows[..i], now)
    {
      assert rows[..i + 1][..i] == rows[..i];
      if Aged(now, rows[i]) && (oldest.None? || rows[i].at.value < oldest.value.at.value) {
        oldest := Some(rows[i]);
      }
    }
    assert rows[..|rows|] == rows;
    a := if oldest.Some? then Import(Period(oldest.value.day, oldest.value.day + 1)) else Nothing;
  }

  // ---------------------------------------------------------------- asking and publishing in turn

  /** The partitions of the source with their publication times. */
  type Partitions = map<Day, Option<Time>>

  /** Publishing a period serves its days from now on and drops days before the retention. */
  function Published(c: Config, m: Partitions, p: Period, today: Day, now: Time): (r: Partitions) {
    map d | d in m.Keys + Span(p) && d >= today - c.retention :: if Within(p, d) then Some(now) else m[d]
  }

  predicate Within(p: Period, d: Day) { p.from <= d < p.to }

  function Span(p: Period): (s: set<Day>) { set d | p.from <= d < p.to && Within(p, d) }

  predicate Retained(c: Config, today: Day, d: Day) { d >= today + 1 - c.retention }

  /** The query: each retained partition once, in any order. */
  ghost predicate Queried(c: Config, rows: seq<Row>, m: Partitions, today: Day) {
    && (forall i :: 0 <= i < |rows| ==> rows[i].day in m && rows[i].at == m[rows[i].day] && Retained(c, today, rows[i].day))
    && (forall d :: d in m && Retained(c, today, d) ==> Seen(rows, d))
    && (forall i, j :: 0 <= i < j < |rows| ==> rows[i].day != rows[j].day)
  }

  /** One round: when it asked, what it read, when it published. */
  datatype Round = Round(asked: Time, rows: seq<Row>, published: Time)

  function After(c: Config, m: Partitions, today: Day, r: Round): (n: Partitions) {
    var a := Ask(c, r.rows, today, r.asked);
    if a.Import? then Published(c, m, a.period, today, r.published) else m
  }

  function At(c: Config, m: Partitions, today: Day, rounds: seq<Round>, n: nat): (r: Partitions)
    requires n <= |rounds|
  {
    if n == 0 then m else After(c, At(c, m, today, rounds, n - 1), today, rounds[n - 1])
  }

  /** The rounds happen within one cadence of `start`, on one day, each reading the tables as they are. */
  ghost predicate Prompt(c: Config, m: Partitions, today: Day, start: Time, rounds: seq<Round>) {
    forall i :: 0 <= i < |rounds| ==>
      && Queried(c, rounds[i].rows, At(c, m, today, rounds, i), today)
      && start <= rounds[i].asked <= rounds[i].published < start + Cadence(c) * SECOND
  }

  /** No partition lies beyond today. */
  predicate Past(m: Partitions, today: Day) { forall d :: d in m ==> d <= today }

  // ---------------------------------------------------------------- the measure

  predicate NewAt(m: Partitions, d: Day, start: Time) { d in m && m[d].Some? && m[d].value >= start }

  /** One while today's partition has not been published since the start. */
  function Pending(m: Partitions, today: Day, start: Time): (n: nat) { if NewAt(m, today, start) then 0 else 1 }

  /** Days from the start of the backfill to its newest missing day. */
  function Reach(c: Config, m: Partitions, today: Day, offset: nat): (n: nat)
    requires offset <= c.backfill
    ensures n <= c.backfill - offset
    decreases c.backfill - offset
  {
    if offset == c.backfill then 0
    else if today - offset !in m then c.backfill - offset
    else Reach(c, m, today, offset + 1)
  }

  /** Imports of seven days that are enough to fill the backfill. */
  function Weeks(c: Config, m: Partitions, today: Day): (n: nat) { (Reach(c, m, today, 0) + 6) / 7 }

  /** Retained partitions not published since the start. */
  function Unrefreshed(c: Config, m: Partitions, today: Day, start: Time): (s: set<Day>) {
    set d | d in m && Retained(c, today, d) && !NewAt(m, d, start)
  }

  datatype Kind = Recency | Fill | Refresh | Rest

  /** Which branch answers. */
  function KindOf(c: Config, rows: seq<Row>, today: Day, now: Time): (k: Kind) {
    if Stale(c, now, Recent(rows, today)) then Recency
    else if NewestMissing(c, rows, today, 0).Some? then Fill
    else if Oldest(rows, now).Some? then Refresh
    else Rest
  }

  /** The partition a round refreshes. */
  function RefreshedDay(c: Config, today: Day, r: Round): (d: Option<Day>) {
    if KindOf(c, r.rows, today, r.asked).Refresh? then Some(Oldest(r.rows, r.asked).value.day) else None
  }
}
