/** Theorems about the scheduling loop: limits, fairness of one pass, and one-off termination. */
module SchedulerProofs {
  import opened Order
  import opened Scheduler

  // ---------------------------------------------------------------- a pass leaves nothing admissible

  /** Entry `i` wants nothing, or a full limit blocks it. */
  predicate Settled(s: Loop, mode: Mode, now: nat, limit: nat, i: nat)
    requires i < |s.entries|
  {
    !Wants(mode, now, s.running, s.entries[i]) || |s.running| >= limit || ScopeFull(s.scopes, s.entries[i])
  }

  predicate AllSettled(s: Loop, mode: Mode, now: nat, limit: nat) {
    forall o :: 0 <= o < |s.entries| ==> Settled(s, mode, now, limit, Place(s, o))
  }

  lemma AdmitKeepsSettled(s: Loop, mode: Mode, now: nat, limit: nat, i: nat, j: nat)
    requires Inv(s) && i < |s.entries| && j < |s.entries|
    requires Settled(s, mode, now, limit, j) || i == j
    ensures Settled(Admit(s, i, mode, now), mode, now, limit, j)
  {
    hide Rescheduled;
    var r := Admit(s, i, mode, now);
    SubsetSize(s.running, r.running);
  }

  lemma SubsetSize<T>(a: set<T>, b: set<T>)
    requires a <= b
    ensures |a| <= |b|
  {
    assert b == a + (b - a);
  }

  lemma {:induction false} PassFromSettles(s: Loop, mode: Mode, now: nat, limit: nat, offset: nat)
    requires Inv(s) && offset <= |s.entries|
    requires forall o :: 0 <= o < offset ==> Settled(s, mode, now, limit, Place(s, o))
    ensures AllSettled(PassFrom(s, mode, now, limit, offset), mode, now, limit)
    decreases |s.entries| - offset
  {
    hide Inv, Rescheduled, Place, Wants, PassFrom, ScopeFull;
    PassStep(s, mode, now, limit, offset);
    if offset < |s.entries| && |s.running| < limit {
      var i := Place(s, offset);
      if Skips(s, mode, now, i) {
        PassFromSettles(s, mode, now, limit, offset + 1);
      } else {
        var next := Admit(s, i, mode, now);
        AdmitInv(s, i, mode, now) by { assert s.entries[i].job.key !in s.running by { WantsIdle(mode, now, s.running, s.entries[i]); } }
        forall o | 0 <= o < offset + 1
          ensures Settled(next, mode, now, limit, Place(next, o))
        {
          SamePlace(s, next, o);
          AdmitKeepsSettled(s, mode, now, limit, i, Place(s, o));
        }
        PassFromSettles(next, mode, now, limit, offset + 1);
      }
    }
  }

  lemma WantsIdle(mode: Mode, now: nat, running: set<string>, e: Entry)
    requires Wants(mode, now, running, e)
    ensures e.job.key !in running
  {
  }

  lemma SamePlace(s: Loop, t: Loop, o: nat)
    requires s.entries != [] && |s.entries| == |t.entries| && s.cursor == t.cursor
    ensures Place(s, o) == Place(t, o)
  {
  }

  lemma Multiples(n: nat, d: int)
    ensures (d >= 1 ==> n * d >= n) && (d <= -1 ==> n * d <= -(n as int))
  {
    if d >= 1 {
      assert n * d == n + n * (d - 1);
    } else if d <= -1 {
      assert n * d == -(n as int) + n * (d + 1);
    }
  }

  lemma ModIs(x: nat, n: nat, q: nat, r: nat)
    requires n > 0 && x == n * q + r && r < n
    ensures x % n == r
  {
    var d := x / n - q;
    assert n * d == r - x % n by {
      assert x == n * (x / n) + x % n;
      assert n * (x / n - q) == n * (x / n) - n * q;
    }
    Multiples(n, d);
  }

  /** The rotation reaches every entry. */
  lemma Reaches(s: Loop, i: nat) returns (o: nat)
    requires i < |s.entries|
    ensures o < |s.entries| && Place(s, o) == i
  {
    var n := |s.entries|;
    var c, q := s.cursor % n, s.cursor / n;
    assert s.cursor == n * q + c;
    if i >= c {
      o := i - c;
      ModIs(s.cursor + o, n, q, i);
    } else {
      o := i + n - c;
      assert n * (q + 1) == n * q + n;
      ModIs(s.cursor + o, n, q + 1, i);
    }
  }

  predicate SameJobs(a: seq<Entry>, b: seq<Entry>) {
    |a| == |b| && forall i :: 0 <= i < |a| ==> a[i].job == b[i].job
  }

  lemma AdmitKeepsJobs(s: Loop, i: nat, mode: Mode, now: nat)
    requires i < |s.entries|
    ensures SameJobs(s.entries, Admit(s, i, mode, now).entries) && |Admit(s, i, mode, now).entries| == |s.entries|
  {
    hide Rescheduled;
  }

  lemma SameJobsTrans(a: seq<Entry>, b: seq<Entry>, c: seq<Entry>)
    requires SameJobs(a, b) && SameJobs(b, c)
    ensures SameJobs(a, c)
  {
  }

  lemma {:induction false} PassKeepsJobs(s: Loop, mode: Mode, now: nat, limit: nat, offset: nat)
    requires offset <= |s.entries|
    ensures SameJobs(s.entries, PassFrom(s, mode, now, limit, offset).entries)
    decreases |s.entries| - offset
  {
    hide Place, Skips, PassFrom, Admit, SameJobs;
    PassStep(s, mode, now, limit, offset);
    assert SameJobs(s.entries, s.entries) by { SameJobsSelf(s.entries); }
    if offset < |s.entries| && |s.running| < limit {
      if Skips(s, mode, now, Place(s, offset)) {
        PassKeepsJobs(s, mode, now, limit, offset + 1);
      } else {
        var next := Admit(s, Place(s, offset), mode, now);
        AdmitKeepsJobs(s, Place(s, offset), mode, now);
        PassKeepsJobs(next, mode, now, limit, offset + 1);
        SameJobsTrans(s.entries, next.entries, PassFrom(next, mode, now, limit, offset + 1).entries);
      }
    }
  }

  lemma SameJobsSelf(a: seq<Entry>)
    ensures SameJobs(a, a)
  {
  }

  lemma {:induction false} SameLimit(a: seq<Entry>, b: seq<Entry>)
    requires |a| == |b| && forall i :: 0 <= i < |a| ==> a[i].job == b[i].job
    ensures GlobalLimit(a) == GlobalLimit(b)
  {
    if |a| > 1 {
      SameLimit(a[1..], b[1..]);
    }
  }

  /**
    After a pass every due, unfinished entry that is not in flight is blocked: the global limit
    is reached, or its own scope is full.
   */
  lemma PassBlocks(s: Loop, mode: Mode, now: nat)
    requires Inv(s)
    ensures var r := Pass(s, mode, now);
      forall i :: 0 <= i < |r.entries| && Wants(mode, now, r.running, r.entries[i]) ==>
        |r.tasks| >= GlobalLimit(r.entries) || ScopeFull(r.scopes, r.entries[i])
  {
    hide Wants, Place, Admit;
    var limit := GlobalLimit(s.entries);
    var t := PassFrom(s, mode, now, limit, 0);
    PassFromSettles(s, mode, now, limit, 0);
    PassFromInv(s, mode, now, limit, 0);
    KeyCount(t.tasks);
    PassKeepsJobs(s, mode, now, limit, 0);
    SameLimit(s.entries, t.entries);
    forall i | 0 <= i < |t.entries|
      ensures Wants(mode, now, t.running, t.entries[i]) ==> |t.tasks| >= limit || ScopeFull(t.scopes, t.entries[i])
    {
      var o := Reaches(t, i);
      assert Settled(t, mode, now, limit, Place(t, o));
    }
  }

  // ---------------------------------------------------------------- limits

  /** Some entry of the scope is configured to allow `n` tasks. */
  predicate ScopeAllows(entries: seq<Entry>, scope: string, n: nat) {
    exists i :: 0 <= i < |entries| && entries[i].job.scope == scope && n <= entries[i].job.scopeConcurrency
  }

  /** A pass grows the work in flight only up to the global limit, and a scope's only up to a limit configured for it. */
  ghost predicate Bounded(s: Loop, r: Loop, limit: nat) {
    && |s.tasks| <= |r.tasks| && (|r.tasks| == |s.tasks| || |r.tasks| <= limit)
    && forall scope :: CountScope(r.tasks, scope) == CountScope(s.tasks, scope) || ScopeAllows(s.entries, scope, CountScope(r.tasks, scope))
  }

  lemma AdmitBounded(s: Loop, i: nat, mode: Mode, now: nat, limit: nat)
    requires Inv(s) && i < |s.entries| && |s.running| < limit && !ScopeFull(s.scopes, s.entries[i])
    ensures Bounded(s, Admit(s, i, mode, now), limit)
  {
    hide Rescheduled;
    KeyCount(s.tasks);
    var r := Admit(s, i, mode, now);
    forall scope
      ensures CountScope(r.tasks, scope) == CountScope(s.tasks, scope) || ScopeAllows(s.entries, scope, CountScope(r.tasks, scope))
    {
      CountConcat(s.tasks, [s.entries[i].job], scope);
    }
  }

  lemma ScopeAllowsSame(a: seq<Entry>, b: seq<Entry>, scope: string, n: nat)
    requires |a| == |b| && forall i :: 0 <= i < |a| ==> a[i].job == b[i].job
    ensures ScopeAllows(a, scope, n) <==> ScopeAllows(b, scope, n)
  {
    if ScopeAllows(a, scope, n) {
      var i :| 0 <= i < |a| && a[i].job.scope == scope && n <= a[i].job.scopeConcurrency;
      assert b[i].job == a[i].job;
    }
    if ScopeAllows(b, scope, n) {
      var i :| 0 <= i < |b| && b[i].job.scope == scope && n <= b[i].job.scopeConcurrency;
      assert b[i].job == a[i].job;
    }
  }

  lemma BoundedTrans(a: Loop, b: Loop, c: Loop, limit: nat)
    requires Bounded(a, b, limit) && Bounded(b, c, limit) && SameJobs(a.entries, b.entries)
    ensures Bounded(a, c, limit)
  {
    hide ScopeAllows, CountScope;
    forall scope
      ensures CountScope(c.tasks, scope) == CountScope(a.tasks, scope) || ScopeAllows(a.entries, scope, CountScope(c.tasks, scope))
    {
      ScopeAllowsSame(a.entries, b.entries, scope, CountScope(c.tasks, scope));
    }
  }

  lemma {:induction false} PassFromBounded(s: Loop, mode: Mode, now: nat, limit: nat, offset: nat)
    requires Inv(s) && offset <= |s.entries|
    ensures Bounded(s, PassFrom(s, mode, now, limit, offset), limit)
    decreases |s.entries| - offset
  {
    hide Inv, Rescheduled, Place, Bounded, SameJobs, Admit, Wants, ScopeFull, PassFrom;
    PassStep(s, mode, now, limit, offset);
    if offset < |s.entries| && |s.running| < limit {
      var i := Place(s, offset);
      if Skips(s, mode, now, i) {
        PassFromBounded(s, mode, now, limit, offset + 1);
      } else {
        var next := Admit(s, i, mode, now);
        WantsIdle(mode, now, s.running, s.entries[i]);
        AdmitKeepsJobs(s, i, mode, now);
        AdmitInv(s, i, mode, now);
        AdmitBounded(s, i, mode, now, limit);
        PassFromBounded(next, mode, now, limit, offset + 1);
        BoundedTrans(s, next, PassFrom(next, mode, now, limit, offset + 1), limit);
      }
    } else {
      BoundedSelf(s, limit);
    }
  }

  lemma BoundedSelf(s: Loop, limit: nat)
    ensures Bounded(s, s, limit)
  {
  }

  // ---------------------------------------------------------------- runs

  datatype Event = Passed(now: nat) | Completed(i: nat) | Reloaded(jobs: seq<Job>, now: nat)

  /** A completion of a task that is not there, and a reload of a one-off run, change nothing. */
  function After(mode: Mode, s: Loop, e: Event): (r: Loop) {
    match e
    case Passed(now) => Pass(s, mode, now)
    case Completed(i) => if i < |s.tasks| then Complete(s, i) else s
    case Reloaded(jobs, now) => if mode.Watch? then Reload(s, jobs, now) else s
  }

  function At(mode: Mode, jobs: seq<Job>, start: nat, events: seq<Event>, n: nat): (r: Loop)
    requires n <= |events|
  {
    if n == 0 then Init(jobs, start) else After(mode, At(mode, jobs, start, events, n - 1), events[n - 1])
  }

  lemma PassInv(s: Loop, mode: Mode, now: nat)
    requires Inv(s)
    ensures Inv(Pass(s, mode, now))
  {
    PassFromInv(s, mode, now, GlobalLimit(s.entries), 0);
  }

  lemma StepInv(mode: Mode, s: Loop, e: Event)
    requires Inv(s)
    ensures Inv(After(mode, s, e))
  {
    hide Pass, Complete, DistinctKeys, KeySet, Tallied;
    match e
    case Passed(now) => PassInv(s, mode, now);
    case Completed(i) => if i < |s.tasks| { CompleteInv(s, i); }
    case Reloaded(_, _) =>
  }

  /**
    Over every run of admissions, completions and reloads, `running` is exactly the keys of the
    tasks in flight, never two for a key, and each scope counter counts its own tasks.
   */
  lemma {:induction false} RunKeepsInv(mode: Mode, jobs: seq<Job>, start: nat, events: seq<Event>, n: nat)
    requires n <= |events|
    ensures Inv(At(mode, jobs, start, events, n))
  {
    if n > 0 {
      hide After, Inv;
      RunKeepsInv(mode, jobs, start, events, n - 1);
      StepInv(mode, At(mode, jobs, start, events, n - 1), events[n - 1]);
    }
  }

  /** Every configuration of the run allows at most `limit` tasks, and `cap` for the scope. */
  predicate Configured(jobs: seq<Job>, scope: string, limit: nat, cap: nat) {
    && GlobalLimit(Started(jobs, 0)) <= limit
    && forall i :: 0 <= i < |jobs| && jobs[i].scope == scope ==> jobs[i].scopeConcurrency <= cap
  }

  predicate AllConfigured(jobs: seq<Job>, events: seq<Event>, scope: string, limit: nat, cap: nat) {
    && Configured(jobs, scope, limit, cap)
    && forall i :: 0 <= i < |events| && events[i].Reloaded? ==> Configured(events[i].jobs, scope, limit, cap)
  }

  ghost predicate WithinLimits(s: Loop, scope: string, limit: nat, cap: nat) {
    && GlobalLimit(s.entries) <= limit
    && (forall i :: 0 <= i < |s.entries| && s.entries[i].job.scope == scope ==> s.entries[i].job.scopeConcurrency <= cap)
    && |s.tasks| <= limit && CountScope(s.tasks, scope) <= cap
  }

  lemma StartedWithin(jobs: seq<Job>, now: nat, scope: string, limit: nat, cap: nat)
    requires Configured(jobs, scope, limit, cap)
    ensures GlobalLimit(Started(jobs, now)) <= limit
    ensures forall i :: 0 <= i < |jobs| && Started(jobs, now)[i].job.scope == scope ==> Started(jobs, now)[i].job.scopeConcurrency <= cap
  {
    SameLimit(Started(jobs, 0), Started(jobs, now));
  }

  lemma PassWithin(s: Loop, mode: Mode, now: nat, scope: string, limit: nat, cap: nat)
    requires Inv(s) && WithinLimits(s, scope, limit, cap)
    ensures WithinLimits(Pass(s, mode, now), scope, limit, cap)
  {
    hide Inv, CountScope;
    var r := PassFrom(s, mode, now, GlobalLimit(s.entries), 0);
    PassFromBounded(s, mode, now, GlobalLimit(s.entries), 0);
    PassKeepsJobs(s, mode, now, GlobalLimit(s.entries), 0);
    SameLimit(s.entries, r.entries);
  }

  lemma StartWithin(jobs: seq<Job>, start: nat, scope: string, limit: nat, cap: nat)
    requires Configured(jobs, scope, limit, cap)
    ensures WithinLimits(Init(jobs, start), scope, limit, cap)
  {
    hide GlobalLimit;
    StartedWithin(jobs, start, scope, limit, cap);
  }

  lemma StepWithin(mode: Mode, s: Loop, e: Event, scope: string, limit: nat, cap: nat)
    requires Inv(s) && WithinLimits(s, scope, limit, cap)
    requires e.Reloaded? ==> Configured(e.jobs, scope, limit, cap)
    ensures WithinLimits(After(mode, s, e), scope, limit, cap)
  {
    hide Inv, Pass, CountScope, GlobalLimit, Release;
    match e
    case Passed(now) => PassWithin(s, mode, now, scope, limit, cap);
    case Completed(i) => if i < |s.tasks| { RemovedCount(s.tasks, i, scope); }
    case Reloaded(again, now) => StartedWithin(again, now, scope, limit, cap);
  }

  /**
    A run whose configurations all respect a global limit and a cap for a scope never has more
    tasks in flight than the limit, nor more of that scope than the cap.
   */
  lemma {:induction false} RunWithinLimits(mode: Mode, jobs: seq<Job>, start: nat, events: seq<Event>, n: nat, scope: string, limit: nat, cap: nat)
    requires n <= |events| && AllConfigured(jobs, events, scope, limit, cap)
    ensures WithinLimits(At(mode, jobs, start, events, n), scope, limit, cap)
  {
    hide After, Inv, Configured, WithinLimits;
    if n == 0 {
      StartWithin(jobs, start, scope, limit, cap);
    } else {
      RunWithinLimits(mode, jobs, start, events, n - 1, scope, limit, cap);
      RunKeepsInv(mode, jobs, start, events, n - 1);
      StepWithin(mode, At(mode, jobs, start, events, n - 1), events[n - 1], scope, limit, cap);
    }
  }

  // ---------------------------------------------------------------- reloads

  /** A pass stops nothing, and an entry it changes is in flight. */
  ghost predicate Grows(s: Loop, r: Loop) {
    && s.tasks <= r.tasks && s.running <= r.running && |s.entries| == |r.entries|
    && forall i :: 0 <= i < |s.entries| ==>
         r.entries[i].job == s.entries[i].job && (r.entries[i] == s.entries[i] || s.entries[i].job.key in r.running)
  }

  lemma AdmitGrows(s: Loop, i: nat, mode: Mode, now: nat)
    requires i < |s.entries|
    ensures Grows(s, Admit(s, i, mode, now))
  {
    hide Rescheduled;
  }

  lemma GrowsTrans(a: Loop, b: Loop, c: Loop)
    requires Grows(a, b) && Grows(b, c)
    ensures Grows(a, c)
  {
  }

  lemma GrowsSelf(s: Loop)
    ensures Grows(s, s)
  {
  }

  lemma {:induction false} PassFromGrows(s: Loop, mode: Mode, now: nat, limit: nat, offset: nat)
    requires offset <= |s.entries|
    ensures Grows(s, PassFrom(s, mode, now, limit, offset))
    decreases |s.entries| - offset
  {
    hide Place, Skips, PassFrom, Admit, Grows;
    PassStep(s, mode, now, limit, offset);
    GrowsSelf(s);
    if offset < |s.entries| && |s.running| < limit {
      if Skips(s, mode, now, Place(s, offset)) {
        PassFromGrows(s, mode, now, limit, offset + 1);
      } else {
        var next := Admit(s, Place(s, offset), mode, now);
        AdmitGrows(s, Place(s, offset), mode, now);
        assert |next.entries| == |s.entries| by { AdmitKeepsJobs(s, Place(s, offset), mode, now); }
        PassFromGrows(next, mode, now, limit, offset + 1);
        GrowsTrans(s, next, PassFrom(next, mode, now, limit, offset + 1));
      }
    }
  }

  /**
    A reload and the pass that follows it stop no task in flight and lose no count, and start
    every job of the new configuration at once: each is in flight, under this configuration or
    the one before, or a full limit of the new configuration blocks it.
   */
  lemma ReloadRestarts(s: Loop, jobs: seq<Job>, now: nat)
    requires Inv(s)
    ensures var r := Pass(Reload(s, jobs, now), Watch, now);
      && Inv(r) && s.tasks <= r.tasks && r.forwarded == s.forwarded
      && |r.entries| == |jobs|
      && forall i :: 0 <= i < |jobs| ==>
           r.entries[i].job == jobs[i]
           && (jobs[i].key in r.running || |r.tasks| >= GlobalLimit(r.entries) || Tally(r.scopes, jobs[i].scope) >= jobs[i].scopeConcurrency)
  {
    hide Place, Admit, PassFrom, KeySet, DistinctKeys;
    var reloaded := Reload(s, jobs, now);
    var limit := GlobalLimit(reloaded.entries);
    var r := Pass(reloaded, Watch, now);
    PassInv(reloaded, Watch, now);
    PassBlocks(reloaded, Watch, now);
    PassFromGrows(reloaded, Watch, now, limit, 0);
    PassForwards(reloaded, Watch, now, limit, 0);
    forall i | 0 <= i < |jobs| && jobs[i].key !in r.running
      ensures |r.tasks| >= GlobalLimit(r.entries) || ScopeFull(r.scopes, r.entries[i])
    {
      assert r.entries[i] == reloaded.entries[i];
      assert Wants(Watch, now, r.running, r.entries[i]);
    }
  }

  lemma {:induction false} PassForwards(s: Loop, mode: Mode, now: nat, limit: nat, offset: nat)
    requires offset <= |s.entries|
    ensures PassFrom(s, mode, now, limit, offset).forwarded == s.forwarded
    decreases |s.entries| - offset
  {
    hide Place, Skips, PassFrom;
    PassStep(s, mode, now, limit, offset);
    if offset < |s.entries| && |s.running| < limit {
      PassForwards(s, mode, now, limit, offset + 1);
      PassForwards(Admit(s, Place(s, offset), mode, now), mode, now, limit, offset + 1);
    }
  }
}
