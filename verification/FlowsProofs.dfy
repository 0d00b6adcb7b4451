/** A stage is reported unhealthy exactly when its history shows an unbroken idle chain. */
module FlowsProofs {
  import opened Order
  import Evidence
  import opened Flows

  lemma SignalMeans(s: seq<Sample>)
    ensures Signal(s).None? <==> s == [] || exists i, j :: 0 <= i < |s| && 0 <= j < |s| && s[i].resource != s[j].resource
    ensures Signal(s).Some? ==> Signal(s).value in s && forall x :: x in s ==> x.at <= Signal(s).value.at
  {
  }

  /**
    The selected sample does not depend on the order the observations came in, except between
    samples of one instant: whether there is one, its resource and its time are the same, and it
    is the same sample when no other was taken at that time.
   */
  lemma SignalOrder(s: seq<Sample>, t: seq<Sample>)
    requires forall x :: x in s <==> x in t
    ensures Signal(s).Some? <==> Signal(t).Some?
    ensures Signal(s).Some? ==>
      && Signal(s).value.resource == Signal(t).value.resource && Signal(s).value.at == Signal(t).value.at
      && ((forall x, y :: x in s && y in s && x.at == y.at == Signal(s).value.at ==> x == y) ==> Signal(s) == Signal(t))
  {
    hide Signal;
    SignalMeans(s);
    SignalMeans(t);
    if Signal(s).None? && s != [] {
      var i, j :| 0 <= i < |s| && 0 <= j < |s| && s[i].resource != s[j].resource;
      Differing(t, s[i], s[j]);
    }
    if Signal(t).None? && t != [] {
      var i, j :| 0 <= i < |t| && 0 <= j < |t| && t[i].resource != t[j].resource;
      Differing(s, t[i], t[j]);
    }
    assert s == [] <==> t == [] by {
      assert s != [] ==> s[0] in t;
      assert t != [] ==> t[0] in s;
    }
  }

  lemma Differing(s: seq<Sample>, x: Sample, y: Sample)
    requires x in s && y in s && x.resource != y.resource
    ensures exists i, j :: 0 <= i < |s| && 0 <= j < |s| && s[i].resource != s[j].resource
  {
    var i :| 0 <= i < |s| && s[i] == x;
    var j :| 0 <= j < |s| && s[j] == y;
    assert s[i].resource != s[j].resource;
  }

  // ---------------------------------------------------------------- histories

  datatype Event = Read(x: Reading) | Dropped(keys: set<string>)

  function Next(records: Records, e: Event): (r: Records) {
    match e
    case Read(x) => Stage(records, x).records
    case Dropped(keys) => records - keys
  }

  function RecordsAt(events: seq<Event>, n: nat): (r: Records)
    requires n <= |events|
  {
    if n == 0 then map[] else Next(RecordsAt(events, n - 1), events[n - 1])
  }

  /** The evaluation takes its sample into the record of the stage. */
  predicate Accepts(records: Records, x: Reading) {
    Judged(x) && if x.key in records then Flows.At(x) > records[x.key].lastSeen else |records| < x.limit
  }

  predicate Takes(events: seq<Event>, i: nat, key: string)
    requires i < |events|
    ensures Takes(events, i, key) ==> events[i].Read? && Judged(events[i].x)
  {
    events[i].Read? && events[i].x.key == key && Accepts(RecordsAt(events, i), events[i].x)
  }

  /** The record of the stage is lost: demand stopped, or the stage was dropped. */
  predicate Loses(events: seq<Event>, i: nat, key: string)
    requires i < |events|
  {
    match events[i]
    case Read(x) => x.key == key && x.active && NoDemand(x)
    case Dropped(keys) => key in keys
  }

  predicate QuietBetween(events: seq<Event>, i: nat, j: nat, key: string)
    requires j <= |events|
  {
    forall k :: i < k < j ==> !Takes(events, k, key) && !Loses(events, k, key)
  }

  /** `j` takes the next sample after `i`, with nothing lost in between. */
  predicate Follows(events: seq<Event>, i: nat, j: nat, key: string)
    requires j < |events|
  {
    i < j && Takes(events, i, key) && Takes(events, j, key) && QuietBetween(events, i, j, key)
  }

  /** `b` continues `a`: within freshness, and a counter has not restarted. */
  predicate Continues(a: Reading, b: Reading)
    requires Judged(a) && Judged(b)
  {
    && Evidence.Seconds(Flows.At(b) - Flows.At(a)) <= b.freshness
    && (b.mode.Counter? ==> b.progress.value.value >= a.progress.value.value)
  }

  /** `b` continues `a` without progress: the counter is unchanged, the rate not positive. */
  predicate Still(a: Reading, b: Reading)
    requires Judged(a) && Judged(b)
  {
    && Continues(a, b)
    && if b.mode.Counter? then b.progress.value.value == a.progress.value.value else b.progress.value.value <= 0.0
  }

  /** An unbroken idle chain from the sample taken at `k` up to event `n`. */
  ghost predicate Idle(events: seq<Event>, k: nat, n: nat, key: string)
    requires n <= |events|
  {
    && k < n && Takes(events, k, key)
    && (forall j :: k < j < n ==> !Loses(events, j, key))
    && (forall i, j :: k <= i < j < n && Follows(events, i, j, key) ==> Still(events[i].x, events[j].x))
  }

  /** The sample taken at `last` continued the one before it. */
  ghost predicate Established(events: seq<Event>, last: nat, key: string)
  {
    exists i :: Prior(events, i, last, key)
  }

  ghost predicate Prior(events: seq<Event>, i: nat, last: nat, key: string)
  {
    last < |events| && Follows(events, i, last, key) && Continues(events[i].x, events[last].x)
  }

  ghost predicate IsLast(events: seq<Event>, last: nat, n: nat, key: string)
    requires n <= |events|
  {
    last < n && Takes(events, last, key) && QuietBetween(events, last, n, key)
  }

  /** The record holds the last sample taken. */
  ghost predicate Remembers(events: seq<Event>, n: nat, key: string, last: nat)
    requires n <= |events|
  {
    && IsLast(events, last, n, key) && key in RecordsAt(events, n)
    && var p := RecordsAt(events, n)[key]; var x := events[last].x;
       && p.value == x.progress.value.value && p.lastSeen == Flows.At(x) && p.lastProgress <= p.lastSeen
       && (p.established <==> Established(events, last, key))
  }

  ghost predicate Remembered(events: seq<Event>, n: nat, key: string)
    requires n <= |events|
  {
    exists last :: Remembers(events, n, key, last)
  }

  /** The chain behind the time of last progress. */
  ghost predicate Anchors(events: seq<Event>, k: nat, n: nat, key: string)
    requires n <= |events|
  {
    Idle(events, k, n, key) && key in RecordsAt(events, n) && RecordsAt(events, n)[key].lastProgress == Flows.At(events[k].x)
  }

  ghost predicate Anchored(events: seq<Event>, n: nat, key: string)
    requires n <= |events|
  {
    exists k :: Anchors(events, k, n, key)
  }

  ghost predicate Covers(events: seq<Event>, k: nat, n: nat, key: string)
    requires n <= |events|
  {
    && k < n && Takes(events, k, key)
    && key in RecordsAt(events, n) && RecordsAt(events, n)[key].lastProgress <= Flows.At(events[k].x)
  }

  ghost predicate Faithful(events: seq<Event>, n: nat, key: string)
    requires n <= |events|
  {
    && (key in RecordsAt(events, n) ==> Remembered(events, n, key) && Anchored(events, n, key))
    && (forall k :: Idle(events, k, n, key) ==> Covers(events, k, n, key))
    && (forall k :: IsLast(events, k, n, key) ==> key in RecordsAt(events, n))
  }

  function Find(records: Records, key: string): (p: Option<Progress>) {
    if key in records then Some(records[key]) else None
  }

  lemma Untouched(events: seq<Event>, n: nat, key: string)
    requires n < |events| && !Takes(events, n, key) && !Loses(events, n, key)
    ensures Find(RecordsAt(events, n + 1), key) == Find(RecordsAt(events, n), key)
  {
    hide Moved, Rated;
  }

  lemma Lost(events: seq<Event>, n: nat, key: string)
    requires n < |events| && Loses(events, n, key)
    ensures key !in RecordsAt(events, n + 1) && !Takes(events, n, key)
  {
    hide Updated, Rated;
  }

  function Started(x: Reading): (p: Progress)
    requires Judged(x)
  {
    Progress(x.progress.value.value, Flows.At(x), Flows.At(x), false)
  }

  lemma Taken(events: seq<Event>, n: nat, key: string)
    requires n < |events| && Takes(events, n, key)
    ensures key in RecordsAt(events, n + 1) && !Loses(events, n, key)
    ensures var before := Find(RecordsAt(events, n), key); var x := events[n].x;
      RecordsAt(events, n + 1)[key] == if before.Some? then Moved(before.value, x) else Started(x)
    ensures key in RecordsAt(events, n) ==> RecordsAt(events, n)[key].lastSeen < Flows.At(events[n].x)
  {
    hide Moved, Rated;
  }

  lemma IdleShorter(events: seq<Event>, k: nat, n: nat, key: string)
    requires n < |events| && k < n && Idle(events, k, n + 1, key)
    ensures Idle(events, k, n, key)
  {
    hide Takes, Loses, Still, Follows;
  }

  lemma IdleQuiet(events: seq<Event>, k: nat, n: nat, key: string)
    requires n < |events| && Idle(events, k, n, key) && !Takes(events, n, key) && !Loses(events, n, key)
    ensures Idle(events, k, n + 1, key)
  {
    hide Takes, Loses, Still;
    assert forall i :: !Follows(events, i, n, key);
  }

  lemma LastIsLast(events: seq<Event>, k: nat, n: nat, key: string, last: nat)
    requires k < n <= |events| && Takes(events, k, key) && IsLast(events, last, n, key)
    ensures k <= last
  {
    hide Takes, Loses;
  }

  lemma IdlePush(events: seq<Event>, k: nat, last: nat, n: nat, key: string)
    requires n < |events| && Idle(events, k, n, key) && IsLast(events, last, n, key) && k <= last
    requires Takes(events, n, key) && Still(events[last].x, events[n].x)
    ensures Idle(events, k, n + 1, key)
  {
    hide Takes, Loses, Still;
    assert !Loses(events, n, key) by { Taken(events, n, key); }
    forall i | k <= i < n && Follows(events, i, n, key)
      ensures i == last
    {
    }
  }

  lemma IdleStart(events: seq<Event>, n: nat, key: string)
    requires n < |events| && Takes(events, n, key)
    ensures Idle(events, n, n + 1, key) && IsLast(events, n, n + 1, key)
  {
    hide Takes, Loses, Still;
  }

  lemma IdleBounds(events: seq<Event>, k: nat, n: nat, key: string)
    requires n <= |events| && Idle(events, k, n, key)
    ensures k < n && Takes(events, k, key)
  {
    hide Takes, Loses, Still;
  }

  lemma IdleStill(events: seq<Event>, k: nat, last: nat, n: nat, key: string)
    requires n < |events| && Idle(events, k, n + 1, key) && k <= last && Follows(events, last, n, key)
    ensures Still(events[last].x, events[n].x)
  {
    hide Takes, Loses, Still;
  }

  lemma LastFollows(events: seq<Event>, last: nat, n: nat, key: string)
    requires n < |events| && IsLast(events, last, n, key) && Takes(events, n, key)
    ensures Follows(events, last, n, key)
  {
    hide Takes, Loses;
  }

  lemma LastQuiet(events: seq<Event>, last: nat, n: nat, key: string)
    requires n < |events| && !Takes(events, n, key) && !Loses(events, n, key)
    ensures IsLast(events, last, n + 1, key) <==> IsLast(events, last, n, key)
  {
    hide Takes, Loses;
  }

  lemma LastLost(events: seq<Event>, last: nat, n: nat, key: string)
    requires n < |events| && Loses(events, n, key)
    ensures !IsLast(events, last, n + 1, key)
  {
    Lost(events, n, key);
    hide Takes, Loses;
  }

  // ---------------------------------------------------------------- the induction

  lemma FaithfulLost(events: seq<Event>, n: nat, key: string)
    requires n < |events| && Loses(events, n, key)
    ensures Faithful(events, n + 1, key)
  {
    hide RecordsAt, Takes, Loses, Still, Follows, Remembered, Anchored, Covers;
    Lost(events, n, key);
    var m := n + 1;
    forall k
      ensures !IsLast(events, k, m, key)
    {
      LastLost(events, k, n, key);
    }
  }

  lemma FaithfulQuiet(events: seq<Event>, n: nat, key: string)
    requires n < |events| && !Takes(events, n, key) && !Loses(events, n, key) && Faithful(events, n, key)
    ensures Faithful(events, n + 1, key)
  {
    hide RecordsAt, Takes, Loses, Still, Follows, Idle, IsLast, Established;
    Untouched(events, n, key);
    var m := n + 1;
    if key in RecordsAt(events, n) {
      var last: nat :| Remembers(events, n, key, last);
      LastQuiet(events, last, n, key);
      assert Remembers(events, m, key, last);
      var k: nat :| Anchors(events, k, n, key);
      IdleQuiet(events, k, n, key);
      assert Anchors(events, k, m, key);
    }
    forall k | Idle(events, k, m, key)
      ensures Covers(events, k, m, key)
    {
      IdleBounds(events, k, m, key);
      IdleShorter(events, k, n, key);
      assert Covers(events, k, n, key);
    }
    forall k | IsLast(events, k, m, key)
      ensures key in RecordsAt(events, m)
    {
      LastQuiet(events, k, n, key);
    }
  }

  lemma BreaksMeans(p: Progress, a: Reading, b: Reading)
    requires Judged(a) && Judged(b) && p.value == a.progress.value.value && p.lastSeen == Flows.At(a)
    ensures !Breaks(p, b) <==> Continues(a, b)
    ensures !Breaks(p, b) && !Moves(p, b) <==> Still(a, b)
  {
    hide Evidence.Seconds, Flows.At;
  }

  /** The record after a sample: its own value and time, established when it continues the last. */
  lemma TakenRemembers(events: seq<Event>, n: nat, key: string)
    requires n < |events| && Takes(events, n, key) && Faithful(events, n, key)
    ensures Remembers(events, n + 1, key, n)
  {
    hide RecordsAt, Takes, Loses, Still, Idle, Breaks, Moves, Continues, Flows.At, Anchored, Covers, QuietBetween;
    Taken(events, n, key);
    IdleStart(events, n, key);
    var x := events[n].x;
    if key in RecordsAt(events, n) {
      var last: nat :| Remembers(events, n, key, last);
      LastFollows(events, last, n, key);
      BreaksMeans(RecordsAt(events, n)[key], events[last].x, x);
      if Established(events, n, key) {
        var i :| Prior(events, i, n, key);
        OnePrior(events, i, last, n, key);
      }
      if Continues(events[last].x, x) {
        assert Prior(events, last, n, key);
      }
    } else {
      NotEstablished(events, n, key);
    }
  }

  /** A sample with no live predecessor does not establish the stage. */
  lemma NotEstablished(events: seq<Event>, n: nat, key: string)
    requires n < |events| && forall k :: !IsLast(events, k, n, key)
    ensures !Established(events, n, key)
  {
    hide Takes, Loses, Continues, QuietBetween;
    assert forall i :: Follows(events, i, n, key) ==> IsLast(events, i, n, key);
  }

  lemma LastBounds(events: seq<Event>, last: nat, n: nat, key: string)
    requires n <= |events| && IsLast(events, last, n, key)
    ensures last < n && Takes(events, last, key)
  {
    hide Takes, Loses, QuietBetween;
  }

  lemma OnePrior(events: seq<Event>, i: nat, j: nat, n: nat, key: string)
    requires n < |events| && Follows(events, i, n, key) && Follows(events, j, n, key)
    ensures i == j
  {
    hide Takes, Loses;
  }

  lemma TakenAnchored(events: seq<Event>, n: nat, key: string)
    requires n < |events| && Takes(events, n, key) && Faithful(events, n, key)
    ensures Anchored(events, n + 1, key)
  {
    hide RecordsAt, Takes, Loses, Still, Idle, Breaks, Moves, Continues, Flows.At, Covers, IsLast, Established;
    Taken(events, n, key);
    IdleStart(events, n, key);
    var x := events[n].x;
    if key in RecordsAt(events, n) {
      var p := RecordsAt(events, n)[key];
      var last: nat :| Remembers(events, n, key, last);
      var k: nat :| Anchors(events, k, n, key);
      IdleBounds(events, k, n, key);
      LastIsLast(events, k, n, key, last);
      LastBounds(events, last, n, key);
      BreaksMeans(p, events[last].x, x);
      if Breaks(p, x) || Moves(p, x) {
        assert Anchors(events, n, n + 1, key);
      } else {
        IdlePush(events, k, last, n, key);
        assert Anchors(events, k, n + 1, key);
      }
    } else {
      assert Anchors(events, n, n + 1, key);
    }
  }

  lemma TakenCovers(events: seq<Event>, k: nat, n: nat, key: string)
    requires n < |events| && Takes(events, n, key) && Faithful(events, n, key) && Idle(events, k, n + 1, key)
    ensures Covers(events, k, n + 1, key)
  {
    hide RecordsAt, Takes, Loses, Still, Idle, Breaks, Moves, Continues, Flows.At, Anchored, IsLast, Established;
    Taken(events, n, key);
    IdleBounds(events, k, n + 1, key);
    if k < n {
      IdleShorter(events, k, n, key);
      assert Covers(events, k, n, key);
      var last: nat :| Remembers(events, n, key, last);
      LastIsLast(events, k, n, key, last);
      LastFollows(events, last, n, key);
      IdleStill(events, k, last, n, key);
      BreaksMeans(RecordsAt(events, n)[key], events[last].x, events[n].x);
    } else if key in RecordsAt(events, n) {
      var last: nat :| Remembers(events, n, key, last);
    }
  }

  lemma FaithfulTaken(events: seq<Event>, n: nat, key: string)
    requires n < |events| && Takes(events, n, key) && Faithful(events, n, key)
    ensures Faithful(events, n + 1, key)
  {
    hide RecordsAt, Takes, Loses, Idle, Anchored, Covers, IsLast, Remembers;
    Taken(events, n, key);
    TakenRemembers(events, n, key);
    TakenAnchored(events, n, key);
    var m := n + 1;
    forall k | Idle(events, k, m, key)
      ensures Covers(events, k, m, key)
    {
      TakenCovers(events, k, n, key);
    }
  }

  lemma StartFaithful(events: seq<Event>, key: string)
    ensures Faithful(events, 0, key)
  {
    hide Takes, Loses, Still, Follows;
  }

  lemma {:induction false} RunFaithful(events: seq<Event>, n: nat, key: string)
    requires n <= |events|
    ensures Faithful(events, n, key)
  {
    hide RecordsAt, Takes, Loses, Faithful;
    if n == 0 {
      StartFaithful(events, key);
    } else {
      RunFaithful(events, n - 1, key);
      if Takes(events, n - 1, key) {
        FaithfulTaken(events, n - 1, key);
      } else if Loses(events, n - 1, key) {
        FaithfulLost(events, n - 1, key);
      } else {
        FaithfulQuiet(events, n - 1, key);
      }
    }
  }

  // ---------------------------------------------------------------- the theorem

  /**
    The history up to and including event `n` shows the stage idle: its last sample continued
    the one before, and an unbroken idle chain spans the idle time at this reading.
   */
  ghost predicate ShownIdle(events: seq<Event>, n: nat, key: string)
    requires n < |events| && events[n].Read? && Judged(events[n].x)
  {
    exists k: nat, last: nat :: IsLast(events, last, n + 1, key) && Established(events, last, key) && SpanningIdle(events, k, n, key)
  }

  ghost predicate SpanningIdle(events: seq<Event>, k: nat, n: nat, key: string)
    requires n < |events| && events[n].Read? && Judged(events[n].x)
  {
    && Idle(events, k, n + 1, key)
    && Evidence.Seconds(Flows.At(events[n].x) - Flows.At(events[k].x)) >= events[n].x.idleAfter
  }

  lemma UnhealthyRecord(events: seq<Event>, n: nat)
    requires n < |events| && events[n].Read? && Judged(events[n].x) && events[n].x.known
    ensures var x := events[n].x; var after := RecordsAt(events, n + 1);
      (Stage(RecordsAt(events, n), x).health == Unhealthy)
      <==> (x.key in after && after[x.key].established && Evidence.Seconds(Flows.At(x) - after[x.key].lastProgress) >= x.idleAfter)
  {
    hide Updated, Evidence.Seconds, Flows.At;
  }

  lemma SecondsMonotone(a: int, b: int)
    requires a <= b
    ensures Evidence.Seconds(a) <= Evidence.Seconds(b)
  {
  }

  /** With demand and a known workload, unhealthy is what the history shows idle for the idle time. */
  lemma JudgedMeansIdle(events: seq<Event>, n: nat)
    requires n < |events| && events[n].Read? && Judged(events[n].x) && events[n].x.known
    ensures Stage(RecordsAt(events, n), events[n].x).health == Unhealthy <==> ShownIdle(events, n, events[n].x.key)
  {
    hide RecordsAt, Takes, Loses, Idle, IsLast, Stage, Flows.At, Evidence.Seconds, Established;
    var x := events[n].x;
    var key := x.key;
    UnhealthyRecord(events, n);
    RunFaithful(events, n + 1, key);
    var after := RecordsAt(events, n + 1);
    if key in after && after[key].established && Evidence.Seconds(Flows.At(x) - after[key].lastProgress) >= x.idleAfter {
      var last: nat :| Remembers(events, n + 1, key, last);
      var k: nat :| Anchors(events, k, n + 1, key);
      assert SpanningIdle(events, k, n, key);
    }
    forall k: nat, last: nat | IsLast(events, last, n + 1, key) && Established(events, last, key) && SpanningIdle(events, k, n, key)
      ensures key in after && after[key].established && Evidence.Seconds(Flows.At(x) - after[key].lastProgress) >= x.idleAfter
    {
      assert Covers(events, k, n + 1, key);
      var other: nat :| Remembers(events, n + 1, key, other);
      OneLast(events, last, other, n + 1, key);
      SecondsMonotone(Flows.At(x) - Flows.At(events[k].x), Flows.At(x) - after[key].lastProgress);
    }
  }

  lemma OneLast(events: seq<Event>, a: nat, b: nat, n: nat, key: string)
    requires n <= |events| && IsLast(events, a, n, key) && IsLast(events, b, n, key)
    ensures a == b
  {
    hide Takes, Loses;
  }

  /**
    An evaluation reports the stage unhealthy if and only if there is demand, a progress sample
    and a known workload, and its whole history shows it idle for the idle time.
   */
  lemma UnhealthyMeansIdle(events: seq<Event>, n: nat)
    requires n < |events| && events[n].Read?
    ensures var x := events[n].x;
      Stage(RecordsAt(events, n), x).health == Unhealthy <==> Judged(x) && x.known && ShownIdle(events, n, x.key)
  {
    hide RecordsAt, Stage, ShownIdle;
    OnlyJudgedUnhealthy(RecordsAt(events, n), events[n].x);
    if Judged(events[n].x) && events[n].x.known {
      JudgedMeansIdle(events, n);
    }
  }

  lemma OnlyJudgedUnhealthy(records: Records, x: Reading)
    ensures Stage(records, x).health == Unhealthy ==> Judged(x) && x.known
  {
    hide Updated, Evidence.Seconds, Flows.At;
  }
}
