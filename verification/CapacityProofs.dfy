/** The pressure clocks mean what the reading history says, in both directions. */
module CapacityProofs {
  import opened Order
  import opened Evidence
  import opened Capacity

  lemma LastIsLast(events: seq<Event>, k: nat, n: nat, resource: string, last: nat)
    requires k < n <= |events| && Counts(events, k, resource) && Remembers(events, n, resource, last)
    ensures k <= last
  {
    hide Counts, Loses;
  }

  lemma NotBroken(events: seq<Event>, n: nat, resource: string, last: nat)
    requires n < |events| && Counts(events, n, resource) && Remembers(events, n, resource, last)
    ensures !Broken(At(events, n)[resource], events[n].c) <==> Continues(events[last].c, events[n].c)
  {
    hide Loses, At, Sees;
  }

  lemma RememberNow(events: seq<Event>, n: nat, resource: string)
    requires n < |events| && Counts(events, n, resource)
    ensures Remembers(events, n + 1, resource, n)
  {
    hide Counts, Loses, Sees, At;
    CountedClock(events, n, resource);
  }

  lemma SinceAdvanced(p: Option<Pressure>, c: Call, level: Level)
    requires c.reading.metric.Some? && Sound(c.reading.metric.value)
    ensures Since(Advanced(p, c), level)
         == Clock(if p.Some? then Since(p.value, level) else None, p.Some? && Broken(p.value, c), High(c, level), c.reading.observedAt)
    ensures Advanced(p, c).lastSeen == c.reading.observedAt
  {
    hide Broken, High;
  }

  lemma FaithfulLost(events: seq<Event>, n: nat, resource: string, level: Level)
    requires n < |events| && Loses(events, n, resource)
    ensures Faithful(events, n + 1, resource, level)
  {
    hide At, Counts, Loses, High, Continues, Follows, Remembers, Backs, Covers;
    Lost(events, n, resource);
  }

  lemma RememberQuiet(events: seq<Event>, n: nat, resource: string, last: nat)
    requires n < |events| && !Counts(events, n, resource) && !Loses(events, n, resource) && Remembers(events, n, resource, last)
    ensures Remembers(events, n + 1, resource, last)
  {
    hide Counts, Loses, Sees, At;
    Untouched(events, n, resource);
  }

  lemma FaithfulQuiet(events: seq<Event>, n: nat, resource: string, level: Level)
    requires n < |events| && !Counts(events, n, resource) && !Loses(events, n, resource) && Faithful(events, n, resource, level)
    ensures Faithful(events, n + 1, resource, level)
  {
    hide At, Counts, Loses, High, Continues, Follows, Remembers, Unbroken, Since;
    Untouched(events, n, resource);
    if resource in At(events, n) {
      var last :| Remembers(events, n, resource, last);
      RememberQuiet(events, n, resource, last);
      if Since(At(events, n)[resource], level).Some? {
        var k :| Backs(events, k, n, resource, level);
        UnbrokenQuiet(events, k, n, resource, level);
        assert Backs(events, k, n + 1, resource, level);
      }
    }
    var m := n + 1;
    forall k | Unbroken(events, k, m, resource, level)
      ensures Covers(events, k, m, resource, level)
    {
      UnbrokenBounds(events, k, n + 1, resource, level);
      UnbrokenShorter(events, k, n, resource, level);
      assert Covers(events, k, n, resource, level);
    }
  }

  lemma UnbrokenBounds(events: seq<Event>, k: nat, n: nat, resource: string, level: Level)
    requires n <= |events| && Unbroken(events, k, n, resource, level)
    ensures k < n && Counts(events, k, resource) && High(events[k].c, level)
  {
    hide Counts, Loses, High, Continues, Follows;
  }

  lemma FaithfulCounted(events: seq<Event>, n: nat, resource: string, level: Level)
    requires n < |events| && Counts(events, n, resource) && Faithful(events, n, resource, level)
    ensures Faithful(events, n + 1, resource, level)
  {
    hide At, Counts, Loses, Continues, Follows, Remembers, Unbroken, Since, Advanced, Backs, Covers;
    RememberNow(events, n, resource);
    CountedClock(events, n, resource);
    var c := events[n].c;
    SinceAdvanced(Find(At(events, n), resource), c, level);
    CountedBacked(events, n, resource, level);
    var m := n + 1;
    forall k | Unbroken(events, k, m, resource, level)
      ensures Covers(events, k, m, resource, level)
    {
      CountedCovers(events, k, n, resource, level);
    }
  }

  /** After a counted reading, a running clock has a run behind it. */
  lemma CountedBacked(events: seq<Event>, n: nat, resource: string, level: Level)
    requires n < |events| && Counts(events, n, resource) && Faithful(events, n, resource, level)
    ensures resource in At(events, n + 1)
    ensures var p := At(events, n + 1)[resource];
      Since(p, level).Some? ==>
        Since(p, level).value <= p.lastSeen && Backed(events, n + 1, resource, level)
  {
    hide At, Counts, Loses, Continues, Follows, Remembers, Unbroken, Since, Advanced, Broken, High, Covers;
    CountedClock(events, n, resource);
    var c := events[n].c;
    var before := Find(At(events, n), resource);
    SinceAdvanced(before, c, level);
    if High(c, level) {
      if before.Some? && Since(before.value, level).Some? && !Broken(before.value, c) {
        var last :| Remembers(events, n, resource, last);
        var k :| Backs(events, k, n, resource, level);
        UnbrokenBounds(events, k, n, resource, level);
        LastIsLast(events, k, n, resource, last);
        NotBroken(events, n, resource, last);
        UnbrokenPush(events, k, last, n, resource, level);
        assert Backs(events, k, n + 1, resource, level);
      } else {
        UnbrokenStart(events, n, resource, level);
        assert Backs(events, n, n + 1, resource, level);
      }
    }
  }

  lemma FollowsLast(events: seq<Event>, n: nat, resource: string, last: nat)
    requires n < |events| && Counts(events, n, resource) && Remembers(events, n, resource, last)
    ensures Follows(events, last, n, resource)
  {
    hide At, Counts, Loses;
  }

  lemma RunContinues(events: seq<Event>, k: nat, last: nat, n: nat, resource: string, level: Level)
    requires n < |events| && Unbroken(events, k, n + 1, resource, level) && k <= last && Follows(events, last, n, resource)
    ensures Continues(events[last].c, events[n].c) && High(events[n].c, level)
  {
    hide At, Counts, Loses, Continues, High;
  }

  /** A run reaching a counted reading is covered by the clock it leaves. */
  lemma CountedCovers(events: seq<Event>, k: nat, n: nat, resource: string, level: Level)
    requires n < |events| && Counts(events, n, resource) && Faithful(events, n, resource, level)
    requires Unbroken(events, k, n + 1, resource, level)
    ensures Covers(events, k, n + 1, resource, level)
  {
    hide At, Counts, Loses, Continues, Follows, Remembers, Unbroken, Since, Advanced, Broken, High, Backs;
    UnbrokenBounds(events, k, n + 1, resource, level);
    CountedClock(events, n, resource);
    SinceAdvanced(Find(At(events, n), resource), events[n].c, level);
    if k < n {
      UnbrokenShorter(events, k, n, resource, level);
      assert Covers(events, k, n, resource, level);
      var last :| Remembers(events, n, resource, last);
      LastIsLast(events, k, n, resource, last);
      FollowsLast(events, n, resource, last);
      RunContinues(events, k, last, n, resource, level);
      NotBroken(events, n, resource, last);
    }
  }

  lemma StartFaithful(events: seq<Event>, resource: string, level: Level)
    ensures Faithful(events, 0, resource, level)
  {
    hide Counts, Loses, High, Continues, Follows;
  }

  lemma {:induction false} RunFaithful(events: seq<Event>, n: nat, resource: string, level: Level)
    requires n <= |events|
    ensures Faithful(events, n, resource, level)
  {
    hide At, Counts, Loses, Faithful;
    if n == 0 {
      StartFaithful(events, resource, level);
    } else {
      RunFaithful(events, n - 1, resource, level);
      if Counts(events, n - 1, resource) {
        FaithfulCounted(events, n - 1, resource, level);
      } else if Loses(events, n - 1, resource) {
        FaithfulLost(events, n - 1, resource, level);
      } else {
        FaithfulQuiet(events, n - 1, resource, level);
      }
    }
  }

  // ---------------------------------------------------------------- the theorem

  /** Some unbroken run of the level up to and including event `n` spans the sustain time. */
  ghost predicate SustainedRun(events: seq<Event>, n: nat, resource: string, level: Level)
    requires n < |events| && Counts(events, n, resource)
  {
    exists k: nat :: Spans(events, k, n) && Unbroken(events, k, n + 1, resource, level)
  }

  ghost predicate Spans(events: seq<Event>, k: nat, n: nat)
    requires n < |events|
  {
    && k < |events| && events[k].Read? && events[n].Read?
    && Seconds(events[n].c.reading.observedAt - events[k].c.reading.observedAt) >= events[n].c.settings.sustain
  }

  lemma SecondsMonotone(a: int, b: int)
    requires a <= b
    ensures Seconds(a) <= Seconds(b)
  {
  }

  /**
    At a counted reading the clock of a level is sustained if and only if an earlier counted
    reading starts an unbroken run to it that spans the sustain time.
   */
  lemma ClockMeansRun(events: seq<Event>, n: nat, level: Level)
    requires n < |events| && events[n].Read? && Counts(events, n, events[n].c.reading.resource)
    ensures var r := events[n].c.reading.resource;
      Sustained(Since(Advanced(Find(At(events, n), r), events[n].c), level), events[n].c) <==> SustainedRun(events, n, r, level)
  {
    hide At, Counts, Loses, Continues, Follows, Remembers, Unbroken, Since, Advanced, Broken, High;
    var c := events[n].c;
    var r := c.reading.resource;
    CountedClock(events, n, r);
    RunFaithful(events, n + 1, r, level);
    var since := Since(At(events, n + 1)[r], level);
    if Sustained(since, c) {
      var k :| Backs(events, k, n + 1, r, level);
      UnbrokenBounds(events, k, n + 1, r, level);
      assert Spans(events, k, n);
    }
    forall k: nat | Spans(events, k, n) && Unbroken(events, k, n + 1, r, level)
      ensures Sustained(since, c)
    {
      UnbrokenBounds(events, k, n + 1, r, level);
      assert Covers(events, k, n + 1, r, level);
      SecondsMonotone(c.reading.observedAt - events[k].c.reading.observedAt, c.reading.observedAt - since.value);
    }
  }

  /** What `Evaluate` answers for a counted reading, by its history; `CapacityHistory` says when one counts. */
  lemma VerdictMeansHistory(events: seq<Event>, n: nat)
    requires n < |events| && events[n].Read? && Counts(events, n, events[n].c.reading.resource)
    ensures var c := events[n].c; var r := c.reading.resource; var v := Judged(At(events, n), c);
      && (v == Fault(AtError) <==> SustainedRun(events, n, r, AtError))
      && (v == Fault(AtWarning) <==> !SustainedRun(events, n, r, AtError) && SustainedRun(events, n, r, AtWarning))
      && (v == Fine <==> !SustainedRun(events, n, r, AtError) && !High(c, AtWarning))
  {
    hide At, Advanced, SustainedRun, High, Seconds;
    ClockMeansRun(events, n, AtError);
    ClockMeansRun(events, n, AtWarning);
    LowStopsWarning(Find(At(events, n), events[n].c.reading.resource), events[n].c);
  }

  lemma LowStopsWarning(p: Option<Pressure>, c: Call)
    requires c.reading.metric.Some? && Sound(c.reading.metric.value)
    ensures !High(c, AtWarning) ==> Advanced(p, c).warningSince.None?
  {
    hide Broken, High;
  }

  /** A reading over a window as long as the sustain time leaves every clock as it was. */
  lemma LongWindowIgnored(clocks: Clocks, c: Call)
    requires c.reading.metric.Some? && c.reading.active && !Outdated(c)
    requires c.reading.metric.value.windowSeconds >= c.settings.sustain
    ensures After(clocks, c) == clocks && Judged(clocks, c) == Ordinary
  {
  }

  // ---------------------------------------------------------------- long windows

  /** A current, active reading over a window at least as long as the sustain time. */
  predicate LongWindow(e: Event) {
    && e.Read? && e.c.reading.metric.Some? && e.c.reading.active && !Outdated(e.c)
    && e.c.reading.metric.value.windowSeconds >= e.c.settings.sustain
  }

  function ShortOnly(events: seq<Event>): (r: seq<Event>) {
    if events == [] then []
    else
      var n := |events| - 1;
      ShortOnly(events[..n]) + if LongWindow(events[n]) then [] else [events[n]]
  }

  lemma {:induction false} AtPrefix(events: seq<Event>, more: seq<Event>, n: nat)
    requires n <= |events|
    ensures At(events + more, n) == At(events, n)
  {
    hide Next;
    if n > 0 {
      AtPrefix(events, more, n - 1);
    }
  }

  /**
    Readings over long windows can be struck from any history: the clocks, and with them every
    later verdict, are what they are without them.
   */
  lemma {:induction false} LongWindowsStruck(events: seq<Event>, c: Call)
    ensures At(events, |events|) == At(ShortOnly(events), |ShortOnly(events)|)
    ensures Judged(At(events, |events|), c) == Judged(At(ShortOnly(events), |ShortOnly(events)|), c)
    decreases |events|
  {
    hide Next, LongWindow, Judged;
    if events != [] {
      var n := |events| - 1;
      LongWindowsStruck(events[..n], c);
      assert events == events[..n] + [events[n]];
      AtPrefix(events[..n], [events[n]], n);
      if LongWindow(events[n]) {
        LongWindowNext(At(events, n), events[n]);
        assert ShortOnly(events) == ShortOnly(events[..n]);
        assert At(events, n + 1) == Next(At(events, n), events[n]);
      } else {
        AtPrefix(ShortOnly(events[..n]), [events[n]], |ShortOnly(events[..n])|);
      }
    }
  }

  lemma {:induction false} LongWindowNext(clocks: Clocks, e: Event)
    requires LongWindow(e)
    ensures Next(clocks, e) == clocks
  {
    LongWindowIgnored(clocks, e.c);
  }
}
