/** A one-off run ends, and hands over exactly the configured number of samples of each job. */
module SchedulerOnce {
  import opened Order
  import opened Scheduler
  import opened SchedulerProofs

  function CountKey(jobs: seq<Job>, key: string): (n: nat) {
    if jobs == [] then 0 else (if jobs[0].key == key then 1 else 0) + CountKey(jobs[1..], key)
  }

  lemma {:induction false} CountKeyPush(jobs: seq<Job>, job: Job, key: string)
    ensures CountKey(jobs + [job], key) == CountKey(jobs, key) + if job.key == key then 1 else 0
  {
    if jobs == [] {
      assert jobs + [job] == [job];
    } else {
      CountKeyPush(jobs[1..], job, key);
      assert (jobs + [job])[1..] == jobs[1..] + [job];
    }
  }

  function Flight(running: set<string>, key: string): (n: nat) { if key in running then 1 else 0 }

  /** Every sample taken is in flight or forwarded, and none beyond the configured count. */
  ghost predicate Exact(s: Loop, jobs: seq<Job>) {
    && Inv(s) && |s.entries| == |jobs|
    && (forall i :: 0 <= i < |jobs| ==> s.entries[i].job == jobs[i])
    && (forall i :: 0 <= i < |jobs| ==>
          s.entries[i].samples == CountKey(s.forwarded, jobs[i].key) + Flight(s.running, jobs[i].key)
          && s.entries[i].samples <= jobs[i].samples)
    && (forall i :: 0 <= i < |s.tasks| ==> s.tasks[i] in jobs)
    && (forall i :: 0 <= i < |s.forwarded| ==> s.forwarded[i] in jobs)
  }

  predicate Configurable(jobs: seq<Job>) {
    && DistinctKeys(jobs)
    && forall i :: 0 <= i < |jobs| ==> jobs[i].samples <= U32_MAX && jobs[i].concurrency >= 1 && jobs[i].scopeConcurrency >= 1
  }

  lemma AdmitExact(s: Loop, jobs: seq<Job>, i: nat, now: nat)
    requires Configurable(jobs) && Exact(s, jobs) && i < |s.entries| && Wants(Once, now, s.running, s.entries[i])
    ensures Exact(Admit(s, i, Once, now), jobs)
  {
    hide Inv;
    AdmitInv(s, i, Once, now);
  }

  lemma {:induction false} PassFromExact(s: Loop, jobs: seq<Job>, now: nat, limit: nat, offset: nat)
    requires Configurable(jobs) && Exact(s, jobs) && offset <= |s.entries|
    ensures Exact(PassFrom(s, Once, now, limit, offset), jobs)
    decreases |s.entries| - offset
  {
    hide Exact, Rescheduled, Place, Configurable, Wants, PassFrom, ScopeFull;
    PassStep(s, Once, now, limit, offset);
    if offset < |s.entries| && |s.running| < limit {
      var i := Place(s, offset);
      if Skips(s, Once, now, i) {
        PassFromExact(s, jobs, now, limit, offset + 1);
      } else {
        AdmitExact(s, jobs, i, now);
        PassFromExact(Admit(s, i, Once, now), jobs, now, limit, offset + 1);
      }
    }
  }

  /** A finished task is of a configured job and is forwarded. */
  lemma CompleteForwards(s: Loop, jobs: seq<Job>, i: nat)
    requires Configurable(jobs) && Exact(s, jobs) && i < |s.tasks|
    ensures s.tasks[i] in jobs && s.tasks[i].key in s.running && Current(s.entries, s.tasks[i])
  {
    hide CountKey;
    var job := s.tasks[i];
    var k :| 0 <= k < |jobs| && jobs[k] == job;
    assert s.entries[k].job == job;
  }

  /** Forwarding moves one sample of its job out of flight. */
  lemma ForwardCounts(s: Loop, job: Job, key: string)
    requires job.key in s.running
    ensures CountKey(s.forwarded + [job], key) + Flight(s.running - {job.key}, key)
         == CountKey(s.forwarded, key) + Flight(s.running, key)
  {
    CountKeyPush(s.forwarded, job, key);
  }

  lemma CompleteExact(s: Loop, jobs: seq<Job>, i: nat)
    requires Configurable(jobs) && Exact(s, jobs) && i < |s.tasks|
    ensures Exact(Complete(s, i), jobs)
  {
    hide CountKey, Flight, Current, Inv, Release;
    var job := s.tasks[i];
    CompleteForwards(s, jobs, i);
    CompleteInv(s, i);
    forall j | 0 <= j < |jobs|
      ensures CountKey(s.forwarded + [job], jobs[j].key) + Flight(s.running - {job.key}, jobs[j].key)
           == CountKey(s.forwarded, jobs[j].key) + Flight(s.running, jobs[j].key)
    {
      ForwardCounts(s, job, jobs[j].key);
    }
  }

  lemma {:induction false} RunExact(jobs: seq<Job>, start: nat, events: seq<Event>, n: nat)
    requires n <= |events| && Configurable(jobs)
    ensures Exact(At(Once, jobs, start, events, n), jobs)
  {
    hide Pass, Complete, Configurable;
    if n > 0 {
      RunExact(jobs, start, events, n - 1);
      var s := At(Once, jobs, start, events, n - 1);
      hide Exact;
      match events[n - 1]
      case Passed(now) => PassExact(s, jobs, now);
      case Completed(i) => if i < |s.tasks| { CompleteExact(s, jobs, i); }
      case Reloaded(_, _) =>
    }
  }

  lemma PassExact(s: Loop, jobs: seq<Job>, now: nat)
    requires Configurable(jobs) && Exact(s, jobs)
    ensures Exact(Pass(s, Once, now), jobs)
  {
    PassFromExact(s, jobs, now, GlobalLimit(s.entries), 0);
  }

  function TotalSamples(jobs: seq<Job>): (n: nat) {
    if jobs == [] then 0 else jobs[0].samples + TotalSamples(jobs[1..])
  }

  lemma {:induction false} ForwardedTotal(forwarded: seq<Job>, jobs: seq<Job>)
    requires DistinctKeys(jobs) && forall i :: 0 <= i < |forwarded| ==> forwarded[i] in jobs
    requires forall i :: 0 <= i < |jobs| ==> CountKey(forwarded, jobs[i].key) == jobs[i].samples
    ensures |forwarded| == TotalSamples(jobs)
    decreases |jobs|
  {
    if forwarded != [] {
      assert forwarded[0] in jobs;
    }
    if jobs != [] {
      var rest := Without(forwarded, jobs[0].key);
      WithoutCount(forwarded, jobs[0].key);
      forall i | 0 <= i < |rest|
        ensures rest[i] in jobs[1..]
      {
        var k :| 0 <= k < |jobs| && jobs[k] == rest[i];
        assert jobs[1..][k - 1] == rest[i];
      }
      forall i | 0 <= i < |jobs[1..]|
        ensures CountKey(rest, jobs[1..][i].key) == jobs[1..][i].samples
      {
        WithoutOther(forwarded, jobs[0].key, jobs[1..][i].key);
      }
      ForwardedTotal(rest, jobs[1..]);
    }
  }

  function Without(jobs: seq<Job>, key: string): (r: seq<Job>)
    ensures forall i :: 0 <= i < |r| ==> r[i] in jobs && r[i].key != key
  {
    if jobs == [] then []
    else if jobs[0].key == key then Without(jobs[1..], key)
    else [jobs[0]] + Without(jobs[1..], key)
  }

  lemma {:induction false} WithoutCount(jobs: seq<Job>, key: string)
    ensures |Without(jobs, key)| + CountKey(jobs, key) == |jobs|
  {
    if jobs != [] {
      WithoutCount(jobs[1..], key);
    }
  }

  lemma {:induction false} WithoutOther(jobs: seq<Job>, key: string, other: string)
    requires key != other
    ensures CountKey(Without(jobs, key), other) == CountKey(jobs, other)
  {
    if jobs != [] {
      WithoutOther(jobs[1..], key, other);
      if jobs[0].key != key {
        assert Without(jobs, key)[1..] == Without(jobs[1..], key);
      }
    }
  }

  lemma DoneCount(s: Loop, jobs: seq<Job>, i: nat)
    requires Exact(s, jobs) && Done(s, Once) && i < |jobs|
    ensures CountKey(s.forwarded, jobs[i].key) == jobs[i].samples
  {
    hide Inv, CountKey;
    assert s.entries[i].job == jobs[i];
  }

  /** At the end every sample taken has been forwarded. */
  lemma DoneExact(s: Loop, jobs: seq<Job>)
    requires Configurable(jobs) && Exact(s, jobs) && Done(s, Once)
    ensures forall i :: 0 <= i < |jobs| ==> CountKey(s.forwarded, jobs[i].key) == jobs[i].samples
    ensures |s.forwarded| == TotalSamples(jobs)
  {
    hide Inv, Done;
    forall i | 0 <= i < |jobs|
      ensures CountKey(s.forwarded, jobs[i].key) == jobs[i].samples
    {
      DoneCount(s, jobs, i);
    }
    ForwardedTotal(s.forwarded, jobs);
  }

  /** Before the end some job has not had all its samples forwarded. */
  lemma NotDoneShort(s: Loop, jobs: seq<Job>)
    requires Configurable(jobs) && Exact(s, jobs) && !Done(s, Once)
    ensures exists i :: 0 <= i < |jobs| && CountKey(s.forwarded, jobs[i].key) < jobs[i].samples
  {
    hide CountKey;
    if key :| key in s.running {
      var t :| 0 <= t < |s.tasks| && s.tasks[t].key == key;
      var k :| 0 <= k < |jobs| && jobs[k] == s.tasks[t];
      assert s.entries[k].job == jobs[k];
      assert CountKey(s.forwarded, jobs[k].key) < jobs[k].samples;
    } else {
      assert s.running == {};
      var k :| 0 <= k < |s.entries| && s.entries[k].samples < s.entries[k].job.samples;
      assert CountKey(s.forwarded, jobs[k].key) < jobs[k].samples;
    }
  }

  /**
    A one-off run with distinct keys ends exactly when the receiver has `samples` results of
    each job, and then it has no others.
   */
  lemma OnceExact(jobs: seq<Job>, start: nat, events: seq<Event>, n: nat)
    requires n <= |events| && Configurable(jobs)
    ensures var s := At(Once, jobs, start, events, n);
      && (Done(s, Once) <==> forall i :: 0 <= i < |jobs| ==> CountKey(s.forwarded, jobs[i].key) == jobs[i].samples)
      && (Done(s, Once) ==> |s.forwarded| == TotalSamples(jobs))
  {
    hide At, Exact, Configurable, Done;
    RunExact(jobs, start, events, n);
    var s := At(Once, jobs, start, events, n);
    if Done(s, Once) {
      DoneExact(s, jobs);
    } else {
      NotDoneShort(s, jobs);
    }
  }

  // ---------------------------------------------------------------- progress

  function Remaining(entries: seq<Entry>): (n: nat) {
    if entries == [] then 0
    else (if entries[0].samples <= entries[0].job.samples then entries[0].job.samples - entries[0].samples else 0) + Remaining(entries[1..])
  }

  /** Two steps for each sample still to take, one for each in flight. */
  function Measure(s: Loop): (n: nat) { 2 * Remaining(s.entries) + |s.tasks| }

  lemma {:induction false} RemainingUpdate(entries: seq<Entry>, i: nat, e: Entry)
    requires i < |entries| && e.job == entries[i].job && e.samples == entries[i].samples + 1 && entries[i].samples < e.job.samples
    ensures Remaining(entries) == Remaining(entries[i := e]) + 1
    decreases |entries|
  {
    if i > 0 {
      RemainingUpdate(entries[1..], i - 1, e);
      assert entries[i := e][1..] == entries[1..][i - 1 := e];
    } else {
      assert entries[i := e][1..] == entries[1..];
    }
  }

  lemma AdmitMeasure(s: Loop, jobs: seq<Job>, i: nat, now: nat)
    requires Configurable(jobs) && Exact(s, jobs) && i < |s.entries| && Wants(Once, now, s.running, s.entries[i])
    ensures Measure(Admit(s, i, Once, now)) + 1 == Measure(s)
  {
    hide Inv;
    RemainingUpdate(s.entries, i, Rescheduled(Once, now, s.entries[i]));
  }

  /** Each admission takes one from the measure; a pass takes nothing else. */
  lemma {:induction false} PassFromMeasure(s: Loop, jobs: seq<Job>, now: nat, limit: nat, offset: nat)
    requires Configurable(jobs) && Exact(s, jobs) && offset <= |s.entries|
    ensures var r := PassFrom(s, Once, now, limit, offset);
      |r.tasks| >= |s.tasks| && Measure(r) + (|r.tasks| - |s.tasks|) == Measure(s)
    decreases |s.entries| - offset
  {
    hide Exact, Rescheduled, Place, Configurable, Wants, Measure, PassFrom, ScopeFull;
    PassStep(s, Once, now, limit, offset);
    if offset < |s.entries| && |s.running| < limit {
      var i := Place(s, offset);
      if Skips(s, Once, now, i) {
        PassFromMeasure(s, jobs, now, limit, offset + 1);
      } else {
        AdmitExact(s, jobs, i, now);
        AdmitMeasure(s, jobs, i, now);
        PassFromMeasure(Admit(s, i, Once, now), jobs, now, limit, offset + 1);
      }
    }
  }

  lemma {:induction false} LimitPositive(entries: seq<Entry>)
    requires forall i :: 0 <= i < |entries| ==> entries[i].job.concurrency >= 1
    ensures GlobalLimit(entries) >= 1
  {
    if |entries| > 1 {
      LimitPositive(entries[1..]);
    }
  }

  /** With nothing in flight no scope is full. */
  lemma IdleScopes(s: Loop, scope: string)
    requires Inv(s)
    ensures s.tasks == [] ==> Tally(s.scopes, scope) == 0 && s.running == {}
  {
    assert Tally(s.scopes, scope) == CountScope(s.tasks, scope);
  }

  /** Once an unfinished entry is due, an idle loop admits something. */
  lemma IdlePassAdmits(s: Loop, jobs: seq<Job>, now: nat, i: nat)
    requires Configurable(jobs) && Exact(s, jobs) && s.tasks == []
    requires i < |jobs| && s.entries[i].samples < jobs[i].samples && s.entries[i].due <= now
    ensures |Pass(s, Once, now).tasks| > 0
  {
    hide Rescheduled, Place;
    var r := Pass(s, Once, now);
    PassBlocks(s, Once, now);
    PassExact(s, jobs, now);
    LimitPositive(r.entries);
    PassFromUntouched(s, Once, now, GlobalLimit(s.entries), 0);
    IdleScopes(r, jobs[i].scope);
    IdleScopes(s, jobs[i].scope);
    assert Wants(Once, now, s.running, s.entries[i]);
  }

  /** A pass that admits nothing changes no entry. */
  lemma {:induction false} PassFromUntouched(s: Loop, mode: Mode, now: nat, limit: nat, offset: nat)
    requires offset <= |s.entries|
    ensures var r := PassFrom(s, mode, now, limit, offset);
      |r.tasks| >= |s.tasks| && (|r.tasks| == |s.tasks| ==> r == s)
    decreases |s.entries| - offset
  {
    hide Place, Skips, Rescheduled, PassFrom;
    PassStep(s, mode, now, limit, offset);
    if offset < |s.entries| && |s.running| < limit {
      PassFromUntouched(s, mode, now, limit, offset + 1);
      PassFromUntouched(Admit(s, Place(s, offset), mode, now), mode, now, limit, offset + 1);
    }
  }

  /**
    No state before the end is stuck: with work in flight any completion brings the run closer,
    and without it there is an unfinished entry whose due time makes the next pass do so.
   */
  lemma OnceProgress(jobs: seq<Job>, start: nat, events: seq<Event>, n: nat)
    requires n <= |events| && Configurable(jobs) && !Done(At(Once, jobs, start, events, n), Once)
    ensures var s := At(Once, jobs, start, events, n);
      if s.tasks != [] then forall i :: 0 <= i < |s.tasks| ==> Measure(Complete(s, i)) < Measure(s)
      else exists i :: 0 <= i < |s.entries| && Unfinished(s.entries[i])
             && forall now :: now >= s.entries[i].due ==> Measure(Pass(s, Once, now)) < Measure(s)
  {
    hide At, Pass, Rescheduled;
    RunExact(jobs, start, events, n);
    var s := At(Once, jobs, start, events, n);
    if s.tasks == [] {
      assert s.running == {};
      var i :| 0 <= i < |s.entries| && s.entries[i].samples < s.entries[i].job.samples;
      assert Unfinished(s.entries[i]);
      forall now | now >= s.entries[i].due
        ensures Measure(Pass(s, Once, now)) < Measure(s)
      {
        IdlePassAdmits(s, jobs, now, i);
        PassMeasure(s, jobs, now);
      }
    }
  }

  predicate Unfinished(e: Entry) { e.samples < e.job.samples }

  lemma PassMeasure(s: Loop, jobs: seq<Job>, now: nat)
    requires Configurable(jobs) && Exact(s, jobs)
    ensures var r := Pass(s, Once, now); |r.tasks| >= |s.tasks| && Measure(r) + (|r.tasks| - |s.tasks|) == Measure(s)
  {
    hide Exact, Configurable;
    PassFromMeasure(s, jobs, now, GlobalLimit(s.entries), 0);
  }

  /** Steps that brought the run closer to its end. */
  function Productive(jobs: seq<Job>, start: nat, events: seq<Event>, n: nat): (c: nat)
    requires n <= |events|
  {
    if n == 0 then 0
    else
      var closer := Measure(At(Once, jobs, start, events, n)) < Measure(At(Once, jobs, start, events, n - 1));
      Productive(jobs, start, events, n - 1) + if closer then 1 else 0
  }

  /** The measure never grows, so a run has at most twice as many productive steps as samples. */
  lemma {:induction false} ProductiveBounded(jobs: seq<Job>, start: nat, events: seq<Event>, n: nat)
    requires n <= |events| && Configurable(jobs)
    ensures Productive(jobs, start, events, n) + Measure(At(Once, jobs, start, events, n)) <= 2 * TotalSamples(jobs)
  {
    hide Pass, Configurable, Measure;
    if n == 0 {
      InitMeasure(jobs, start);
    } else {
      ProductiveBounded(jobs, start, events, n - 1);
      RunExact(jobs, start, events, n - 1);
      hide Exact;
      var s := At(Once, jobs, start, events, n - 1);
      match events[n - 1]
      case Passed(now) => PassMeasure(s, jobs, now);
      case Completed(i) => if i < |s.tasks| { CompleteMeasure(s, i); }
      case Reloaded(_, _) =>
    }
  }

  lemma CompleteMeasure(s: Loop, i: nat)
    requires i < |s.tasks|
    ensures Measure(Complete(s, i)) + 1 == Measure(s)
  {
  }

  lemma {:induction false} InitMeasure(jobs: seq<Job>, start: nat)
    ensures Measure(Init(jobs, start)) == 2 * TotalSamples(jobs)
  {
    StartedRemaining(jobs, start);
  }

  lemma {:induction false} StartedRemaining(jobs: seq<Job>, start: nat)
    ensures Remaining(Started(jobs, start)) == TotalSamples(jobs)
  {
    if jobs != [] {
      StartedRemaining(jobs[1..], start);
      assert Started(jobs, start)[1..] == Started(jobs[1..], start);
    }
  }
}
