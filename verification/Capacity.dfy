/**
  Sustained capacity pressure (crates/core/src/capacity.rs): the warning and error clocks a
  reading updates, and the statement about the reading history they stand for.
 */
module Capacity {
  import opened Order
  import opened Evidence

  datatype Number = Finite(v: real) | NotFinite

  datatype Metric = Metric(value: Number, capacity: Number, warning: Option<real>, error: Option<real>, windowSeconds: nat)

  /** `metric` is absent for other data and for a metric without a capacity. */
  datatype Reading = Reading(resource: string, observedAt: Time, active: bool, metric: Option<Metric>)

  datatype Settings = Settings(freshness: nat, sustain: nat, warning: real, error: real, maxAssets: nat)

  datatype Call = Call(reading: Reading, settings: Settings, complete: bool, now: Time)

  datatype Level = AtWarning | AtError

  datatype Pressure = Pressure(lastSeen: Time, warningSince: Option<Time>, errorSince: Option<Time>, warning: real, error: real)

  /** `Ordinary` leaves the observation to the other policies. */
  datatype Verdict = Ordinary | Inactive | Undecided | Fine | Fault(level: Level)

  type Clocks = map<string, Pressure>

  // ---------------------------------------------------------------- one reading

  predicate Outdated(c: Call) {
    || !c.complete || c.reading.observedAt > c.now
    || Seconds(c.now - c.reading.observedAt) > c.settings.freshness
  }

  predicate Sound(m: Metric) {
    m.value.Finite? && m.value.v >= 0.0 && m.capacity.Finite? && m.capacity.v > 0.0
  }

  function Percent(m: Metric): (v: real)
    requires Sound(m)
  {
    m.value.v / m.capacity.v * 100.0
  }

  function Threshold(c: Call, level: Level): (v: real)
    requires c.reading.metric.Some?
  {
    var m := c.reading.metric.value;
    if level.AtWarning? then if m.warning.Some? then m.warning.value else c.settings.warning
    else if m.error.Some? then m.error.value else c.settings.error
  }

  /** What a reading does to the clock of its resource. */
  datatype Effect = Ignored | Reset | Counted

  function Sees(clocks: Clocks, c: Call): (e: Effect)
    ensures e.Counted? ==> c.reading.metric.Some? && Sound(c.reading.metric.value)
  {
    if c.reading.metric.None? then Ignored
    else if !c.reading.active || Outdated(c) then Reset
    else if c.reading.metric.value.windowSeconds >= c.settings.sustain then Ignored
    else if !Sound(c.reading.metric.value) then Reset
    else if c.reading.resource !in clocks then if |clocks| >= c.settings.maxAssets then Ignored else Counted
    else if c.reading.observedAt < clocks[c.reading.resource].lastSeen then Ignored
    else Counted
  }

  predicate Broken(p: Pressure, c: Call)
    requires c.reading.metric.Some?
  {
    || Seconds(c.reading.observedAt - p.lastSeen) > c.settings.freshness
    || p.warning != Threshold(c, AtWarning) || p.error != Threshold(c, AtError)
  }

  predicate High(c: Call, level: Level)
    requires c.reading.metric.Some? && Sound(c.reading.metric.value)
  {
    Percent(c.reading.metric.value) >= Threshold(c, level)
  }

  function Clock(since: Option<Time>, broken: bool, high: bool, at: Time): (r: Option<Time>) {
    if !high then None else if since.Some? && !broken then since else Some(at)
  }

  /** The clock of a resource after a counted reading. */
  function Advanced(p: Option<Pressure>, c: Call): (r: Pressure)
    requires c.reading.metric.Some? && Sound(c.reading.metric.value)
  {
    var at := c.reading.observedAt;
    var broken := p.Some? && Broken(p.value, c);
    Pressure(at,
             Clock(if p.Some? then p.value.warningSince else None, broken, High(c, AtWarning), at),
             Clock(if p.Some? then p.value.errorSince else None, broken, High(c, AtError), at),
             Threshold(c, AtWarning), Threshold(c, AtError))
  }

  function Find(clocks: Clocks, resource: string): (p: Option<Pressure>) {
    if resource in clocks then Some(clocks[resource]) else None
  }

  function After(clocks: Clocks, c: Call): (r: Clocks) {
    match Sees(clocks, c)
    case Ignored => clocks
    case Reset => clocks - {c.reading.resource}
    case Counted => clocks[c.reading.resource := Advanced(Find(clocks, c.reading.resource), c)]
  }

  predicate Sustained(since: Option<Time>, c: Call) {
    since.Some? && Seconds(c.reading.observedAt - since.value) >= c.settings.sustain
  }

  class Monitor {
    var pressure: Clocks

    constructor ()
      ensures pressure == map[]
    {
      pressure := map[];
    }

    /** `evaluate`: the clocks become `After`, and a counted reading is judged by its new clock. */
    method Evaluate(c: Call) returns (v: Verdict)
      modifies this
      ensures pressure == After(old(pressure), c)
      ensures v == Judged(old(pressure), c)
    {
      var r := c.reading;
      if r.metric.None? {
        return Ordinary;
      }
      var m := r.metric.value;
      if !r.active {
        pressure := pressure - {r.resource};
        return Inactive;
      }
      if !c.complete || r.observedAt > c.now || Seconds(c.now - r.observedAt) > c.settings.freshness {
        pressure := pressure - {r.resource};
        return Ordinary;
      }
      if m.windowSeconds >= c.settings.sustain {
        return Ordinary;
      }
      if m.value.NotFinite? || m.value.v < 0.0 || m.capacity.NotFinite? || m.capacity.v <= 0.0 {
        pressure := pressure - {r.resource};
        return Undecided;
      }
      var value := m.value.v / m.capacity.v * 100.0;
      var warning := if m.warning.Some? then m.warning.value else c.settings.warning;
      var error := if m.error.Some? then m.error.value else c.settings.error;
      if |pressure| >= c.settings.maxAssets && r.resource !in pressure {
        return Undecided;
      }
      var p := if r.resource in pressure then pressure[r.resource] else Pressure(r.observedAt, None, None, warning, error);
      if r.observedAt < p.lastSeen {
        return Undecided;
      }
      if Seconds(r.observedAt - p.lastSeen) > c.settings.freshness || p.warning != warning || p.error != error {
        p := p.(warningSince := None, errorSince := None);
      }
      p := p.(warning := warning, error := error, lastSeen := r.observedAt);
      if value >= warning {
        if p.warningSince.None? {
          p := p.(warningSince := Some(r.observedAt));
        }
      } else {
        p := p.(warningSince := None);
      }
      if value >= error {
        if p.errorSince.None? {
          p := p.(errorSince := Some(r.observedAt));
        }
      } else {
        p := p.(errorSince := None);
      }
      assert p == Advanced(Find(pressure, r.resource), c);
      pressure := pressure[r.resource := p];
      if Sustained(p.errorSince, c) {
        return Fault(AtError);
      }
      if Sustained(p.warningSince, c) {
        return Fault(AtWarning);
      }
      v := if value < warning then Fine else Undecided;
    }
  }

  /** The verdict in terms of the clocks before the reading. */
  function Judged(clocks: Clocks, c: Call): (v: Verdict) {
    match Sees(clocks, c)
    case Counted =>
      var p := Advanced(Find(clocks, c.reading.resource), c);
      if Sustained(p.errorSince, c) then Fault(AtError)
      else if Sustained(p.warningSince, c) then Fault(AtWarning)
      else if High(c, AtWarning) then Undecided else Fine
    case Ignored =>
      if c.reading.metric.None? || c.reading.metric.value.windowSeconds >= c.settings.sustain then Ordinary else Undecided
    case Reset => if !c.reading.active then Inactive else if Outdated(c) then Ordinary else Undecided
  }

  // ---------------------------------------------------------------- histories

  /** A reading, or the loss of some clocks: a new run, a new scope, resources no longer observed. */
  datatype Event = Read(c: Call) | Dropped(resources: set<string>)

  function Next(clocks: Clocks, e: Event): (r: Clocks) {
    match e
    case Read(c) => After(clocks, c)
    case Dropped(resources) => clocks - resources
  }

  function At(events: seq<Event>, n: nat): (r: Clocks)
    requires n <= |events|
  {
    if n == 0 then map[] else Next(At(events, n - 1), events[n - 1])
  }

  /** Event `i` is a counted reading of the resource. */
  predicate Counts(events: seq<Event>, i: nat, resource: string)
    requires i < |events|
    ensures Counts(events, i, resource) ==>
      events[i].Read? && events[i].c.reading.metric.Some? && Sound(events[i].c.reading.metric.value)
  {
    events[i].Read? && events[i].c.reading.resource == resource && Sees(At(events, i), events[i].c).Counted?
  }

  /** Event `i` loses the clock of the resource. */
  predicate Loses(events: seq<Event>, i: nat, resource: string)
    requires i < |events|
  {
    match events[i]
    case Read(c) => c.reading.resource == resource && Sees(At(events, i), c).Reset?
    case Dropped(resources) => resource in resources
  }

  /** `j` is the next counted reading after `i`. */
  ghost predicate Follows(events: seq<Event>, i: nat, j: nat, resource: string)
    requires j < |events|
  {
    && i < j && Counts(events, i, resource) && Counts(events, j, resource)
    && forall k :: i < k < j ==> !Counts(events, k, resource)
  }

  predicate SameThresholds(a: Call, b: Call)
    requires a.reading.metric.Some? && b.reading.metric.Some?
  {
    Threshold(a, AtWarning) == Threshold(b, AtWarning) && Threshold(a, AtError) == Threshold(b, AtError)
  }

  /** `j` continues the run of `i`: within freshness and under equal thresholds. */
  predicate Continues(a: Call, b: Call)
    requires a.reading.metric.Some? && b.reading.metric.Some?
  {
    Seconds(b.reading.observedAt - a.reading.observedAt) <= b.settings.freshness && SameThresholds(a, b)
  }

  /**
    An unbroken run of the level from counted reading `k` up to event `n`: no loss, every counted
    reading at or above its threshold, each continuing the one before.
   */
  ghost predicate Unbroken(events: seq<Event>, k: nat, n: nat, resource: string, level: Level)
    requires n <= |events|
  {
    && k < n && Counts(events, k, resource)
    && (forall j :: k < j < n ==> !Loses(events, j, resource))
    && (forall j :: k <= j < n && Counts(events, j, resource) ==> High(events[j].c, level))
    && (forall i, j :: k <= i < j < n && Follows(events, i, j, resource) ==> Continues(events[i].c, events[j].c))
  }

  function Since(p: Pressure, level: Level): (t: Option<Time>) {
    if level.AtWarning? then p.warningSince else p.errorSince
  }

  /** The clock remembers the last counted reading, not lost since. */
  ghost predicate Remembers(events: seq<Event>, n: nat, resource: string, last: nat)
    requires n <= |events|
  {
    && last < n && Counts(events, last, resource) && resource in At(events, n)
    && (forall j :: last < j < n ==> !Counts(events, j, resource) && !Loses(events, j, resource))
    && var p := At(events, n)[resource]; var c := events[last].c;
       p.lastSeen == c.reading.observedAt && p.warning == Threshold(c, AtWarning) && p.error == Threshold(c, AtError)
  }

  /** A clock is running exactly for the runs it stands for. */
  ghost predicate Faithful(events: seq<Event>, n: nat, resource: string, level: Level)
    requires n <= |events|
  {
    && (resource in At(events, n) ==> exists last :: Remembers(events, n, resource, last))
    && (resource in At(events, n) && Since(At(events, n)[resource], level).Some? ==>
          Since(At(events, n)[resource], level).value <= At(events, n)[resource].lastSeen
          && Backed(events, n, resource, level))
    && (forall k :: Unbroken(events, k, n, resource, level) ==> Covers(events, k, n, resource, level))
  }

  /** The clock started at reading `k`, and its run is unbroken. */
  ghost predicate Backs(events: seq<Event>, k: nat, n: nat, resource: string, level: Level)
    requires n <= |events| && resource in At(events, n) && Since(At(events, n)[resource], level).Some?
  {
    Unbroken(events, k, n, resource, level) && events[k].c.reading.observedAt == Since(At(events, n)[resource], level).value
  }

  ghost predicate Backed(events: seq<Event>, n: nat, resource: string, level: Level)
    requires n <= |events| && resource in At(events, n) && Since(At(events, n)[resource], level).Some?
  {
    exists k :: Backs(events, k, n, resource, level)
  }

  /** The clock started no later than reading `k`. */
  ghost predicate Covers(events: seq<Event>, k: nat, n: nat, resource: string, level: Level)
    requires n <= |events|
  {
    && k < n && Counts(events, k, resource)
    && resource in At(events, n) && Since(At(events, n)[resource], level).Some?
    && Since(At(events, n)[resource], level).value <= events[k].c.reading.observedAt
  }

  /** An event that neither counts nor loses leaves the clock of the resource as it is. */
  lemma Untouched(events: seq<Event>, n: nat, resource: string)
    requires n < |events| && !Counts(events, n, resource) && !Loses(events, n, resource)
    ensures Find(At(events, n + 1), resource) == Find(At(events, n), resource)
  {
    hide Sees, Advanced;
  }

  lemma Lost(events: seq<Event>, n: nat, resource: string)
    requires n < |events| && Loses(events, n, resource)
    ensures resource !in At(events, n + 1) && !Counts(events, n, resource)
  {
    hide Sees, Advanced;
  }

  lemma CountedClock(events: seq<Event>, n: nat, resource: string)
    requires n < |events| && Counts(events, n, resource)
    ensures resource in At(events, n + 1) && !Loses(events, n, resource)
    ensures At(events, n + 1)[resource] == Advanced(Find(At(events, n), resource), events[n].c)
    ensures resource in At(events, n) ==> At(events, n)[resource].lastSeen <= events[n].c.reading.observedAt
  {
    hide Advanced;
  }

  lemma UnbrokenShorter(events: seq<Event>, k: nat, n: nat, resource: string, level: Level)
    requires n < |events| && k < n && Unbroken(events, k, n + 1, resource, level)
    ensures Unbroken(events, k, n, resource, level)
  {
    hide Counts, Loses, High, Continues, Follows;
  }

  /** A quiet event extends every run. */
  lemma UnbrokenQuiet(events: seq<Event>, k: nat, n: nat, resource: string, level: Level)
    requires n < |events| && Unbroken(events, k, n, resource, level)
    requires !Counts(events, n, resource) && !Loses(events, n, resource)
    ensures Unbroken(events, k, n + 1, resource, level)
  {
    hide Counts, Loses, High, Continues;
    NeverFollows(events, n, resource);
  }

  lemma NeverFollows(events: seq<Event>, n: nat, resource: string)
    requires n < |events| && !Counts(events, n, resource)
    ensures forall i :: !Follows(events, i, n, resource)
  {
  }

  /** A counted reading at the level that continues the last one extends its run. */
  lemma UnbrokenPush(events: seq<Event>, k: nat, last: nat, n: nat, resource: string, level: Level)
    requires n < |events| && Unbroken(events, k, n, resource, level) && Remembers(events, n, resource, last) && k <= last
    requires Counts(events, n, resource) && High(events[n].c, level) && Continues(events[last].c, events[n].c)
    ensures Unbroken(events, k, n + 1, resource, level)
  {
    hide Counts, Loses, High, Continues;
    assert !Loses(events, n, resource) by { CountedClock(events, n, resource); }
    forall i | k <= i < n && Follows(events, i, n, resource)
      ensures i == last
    {
    }
  }

  lemma UnbrokenStart(events: seq<Event>, n: nat, resource: string, level: Level)
    requires n < |events| && Counts(events, n, resource) && High(events[n].c, level)
    ensures Unbroken(events, n, n + 1, resource, level)
  {
    hide Counts, Loses, High, Continues;
  }
}
