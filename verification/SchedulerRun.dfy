/**
  The loop of crates/core/src/scheduler.rs as a whole. In its one-off mode it ends, whatever the
  order in which its tasks finish; waiting is one jump of the clock to the next due time. In its
  watch mode it is one of the runs the theorems speak about, whatever ends each wait.
 */
module SchedulerRun {
  import opened Order
  import opened Scheduler
  import opened SchedulerOnce
  import SchedulerProofs
  import opened SchedulerDriver

  /** Some unfinished entry is due. */
  predicate Ready(entries: seq<Entry>, now: nat) {
    exists i | 0 <= i < |entries| :: Unfinished(entries[i]) && entries[i].due <= now
  }

  /** `next_due`: the earliest due time of an unfinished entry. */
  method NextDue(entries: seq<Entry>, now: nat) returns (due: nat)
    requires exists i :: 0 <= i < |entries| && Unfinished(entries[i])
    ensures due >= now && Ready(entries, due)
  {
    var earliest: Option<nat> := None;
    for i := 0 to |entries|
      invariant earliest.Some? ==> exists k :: 0 <= k < i && Unfinished(entries[k]) && entries[k].due == earliest.value
      invariant earliest.None? ==> forall k :: 0 <= k < i ==> !Unfinished(entries[k])
    {
      if Unfinished(entries[i]) && (earliest.None? || entries[i].due < earliest.value) {
        earliest := Some(entries[i].due);
      }
    }
    due := if earliest.value >= now then earliest.value else now;
  }

  lemma NotDone(s: Loop, jobs: seq<Job>)
    requires Exact(s, jobs) && !Done(s, Once) && s.tasks == []
    ensures exists i :: 0 <= i < |s.entries| && Unfinished(s.entries[i])
  {
    assert s.running == {};
  }

  /** A pass at a ready moment with nothing in flight starts something. */
  lemma ReadyPass(s: Loop, jobs: seq<Job>, now: nat)
    requires Configurable(jobs) && Exact(s, jobs) && s.tasks == [] && Ready(s.entries, now)
    ensures |Pass(s, Once, now).tasks| > 0
  {
    hide Pass, Configurable;
    var i :| 0 <= i < |s.entries| && Unfinished(s.entries[i]) && s.entries[i].due <= now;
    assert s.entries[i].job == jobs[i];
    IdlePassAdmits(s, jobs, now, i);
  }

  /** A pass that starts nothing changes nothing but the cursor. */
  lemma IdlePass(s: Loop, now: nat)
    ensures var r := Pass(s, Once, now); |r.tasks| == |s.tasks| ==> r.entries == s.entries
  {
    SchedulerOnce.PassFromUntouched(s, Once, now, GlobalLimit(s.entries), 0);
  }

  /** `drive` in its one-off mode; `pick` decides which task finishes next. */
  method DriveOnce(jobs: seq<Job>, start: nat, pick: nat -> nat) returns (d: Driver)
    requires Configurable(jobs)
    ensures fresh(d) && Done(d.Now(), Once)
    ensures forall i :: 0 <= i < |jobs| ==> CountKey(d.forwarded, jobs[i].key) == jobs[i].samples
    ensures |d.forwarded| == TotalSamples(jobs)
  {
    hide Pass, Complete, Configurable, Exact, Measure, Done, Ready;
    d := new Driver(Once, jobs, start);
    StartExact(jobs, start);
    var now, turn := start, 0;
    var done := false;
    while !done
      invariant fresh(d) && d.mode == Once && Exact(d.Now(), jobs)
      invariant done ==> Done(d.Now(), Once)
      decreases if done then 0 else 1, Measure(d.Now()), if Ready(d.entries, now) then 0 else 1
    {
      ghost var before := d.Now();
      PassExact(before, jobs, now);
      PassMeasure(before, jobs, now);
      IdlePass(before, now);
      if before.tasks == [] && Ready(before.entries, now) {
        ReadyPass(before, jobs, now);
      }
      d.Admission(now);
      done := d.IsDone();
      if !done {
        ghost var after := d.Now();
        if d.tasks != [] {
          var i := pick(turn) % |d.tasks|;
          CompleteExact(after, jobs, i);
          CompleteMeasure(after, i);
          d.Finish(i);
          turn := turn + 1;
        } else {
          NotDone(after, jobs);
          now := NextDue(d.entries, now);
        }
      }
    }
    DoneExact(d.Now(), jobs);
  }

  lemma StartExact(jobs: seq<Job>, start: nat)
    requires Configurable(jobs)
    ensures Exact(Init(jobs, start), jobs)
  {
  }

  // ---------------------------------------------------------------- watch mode

  /** What ends a wait: its time, a task, or a new configuration. */
  datatype Signal = Elapsed | Ended(i: nat) | Changed(jobs: seq<Job>, at: nat)

  /** One turn of the loop: the time of its pass, and what ends the wait after it. */
  datatype Turn = Turn(now: nat, signal: Signal)

  function Steps(turn: Turn): (events: seq<SchedulerProofs.Event>) {
    [SchedulerProofs.Passed(turn.now)] +
    match turn.signal
    case Elapsed => []
    case Ended(i) => [SchedulerProofs.Completed(i)]
    case Changed(jobs, at) => [SchedulerProofs.Reloaded(jobs, at)]
  }

  function Trace(turns: seq<Turn>): (events: seq<SchedulerProofs.Event>) {
    if turns == [] then [] else Trace(turns[..|turns| - 1]) + Steps(turns[|turns| - 1])
  }

  /** The state after a whole trace. */
  function Reached(jobs: seq<Job>, start: nat, events: seq<SchedulerProofs.Event>): (s: Loop) {
    SchedulerProofs.At(Watch, jobs, start, events, |events|)
  }

  lemma {:induction false} AtPrefix(jobs: seq<Job>, start: nat, events: seq<SchedulerProofs.Event>, more: seq<SchedulerProofs.Event>, n: nat)
    requires n <= |events|
    ensures SchedulerProofs.At(Watch, jobs, start, events + more, n) == SchedulerProofs.At(Watch, jobs, start, events, n)
  {
    hide SchedulerProofs.After;
    if n > 0 {
      AtPrefix(jobs, start, events, more, n - 1);
    }
  }

  lemma {:induction false} ReachedNext(jobs: seq<Job>, start: nat, events: seq<SchedulerProofs.Event>, e: SchedulerProofs.Event)
    ensures Reached(jobs, start, events + [e]) == SchedulerProofs.After(Watch, Reached(jobs, start, events), e)
  {
    hide SchedulerProofs.After;
    AtPrefix(jobs, start, events, [e], |events|);
  }

  /** The states between a pass and what ends the wait after it. */
  lemma {:induction false} ReachedTurn(jobs: seq<Job>, start: nat, turns: seq<Turn>, i: nat)
    requires i < |turns|
    ensures var passed := Pass(Reached(jobs, start, Trace(turns[..i])), Watch, turns[i].now);
      Reached(jobs, start, Trace(turns[..i + 1])) ==
        match turns[i].signal
        case Elapsed => passed
        case Ended(k) => if k < |passed.tasks| then Complete(passed, k) else passed
        case Changed(again, at) => Reload(passed, again, at)
  {
    hide Pass, Complete, Reload, Reached;
    var events := Trace(turns[..i]);
    assert turns[..i + 1][..i] == turns[..i];
    ReachedNext(jobs, start, events, SchedulerProofs.Passed(turns[i].now));
    var after := events + [SchedulerProofs.Passed(turns[i].now)];
    match turns[i].signal
    case Elapsed =>
      assert Trace(turns[..i + 1]) == after;
    case Ended(k) =>
      ReachedNext(jobs, start, after, SchedulerProofs.Completed(k));
      assert Trace(turns[..i + 1]) == after + [SchedulerProofs.Completed(k)];
    case Changed(again, at) =>
      ReachedNext(jobs, start, after, SchedulerProofs.Reloaded(again, at));
      assert Trace(turns[..i + 1]) == after + [SchedulerProofs.Reloaded(again, at)];
  }

  /** Limits common to all configurations of the run, for any scope. */
  ghost predicate Limited(s: Loop, jobs: seq<Job>, events: seq<SchedulerProofs.Event>) {
    forall scope, limit, cap :: SchedulerProofs.AllConfigured(jobs, events, scope, limit, cap) ==>
      SchedulerProofs.WithinLimits(s, scope, limit, cap)
  }

  lemma {:induction false} ReachedSound(jobs: seq<Job>, start: nat, events: seq<SchedulerProofs.Event>)
    ensures Inv(Reached(jobs, start, events)) && Limited(Reached(jobs, start, events), jobs, events)
  {
    hide Inv, SchedulerProofs.At, SchedulerProofs.AllConfigured, SchedulerProofs.WithinLimits;
    SchedulerProofs.RunKeepsInv(Watch, jobs, start, events, |events|);
    forall scope, limit, cap | SchedulerProofs.AllConfigured(jobs, events, scope, limit, cap)
      ensures SchedulerProofs.WithinLimits(Reached(jobs, start, events), scope, limit, cap)
    {
      SchedulerProofs.RunWithinLimits(Watch, jobs, start, events, |events|, scope, limit, cap);
    }
  }

  /**
    `drive` in its watch mode, for as many turns as it is let run: passes, completions and
    reloads leave the state of the run they make up, with `running` and the scope counters those
    of the tasks in flight and no common limit exceeded.
   */
  method DriveWatch(jobs: seq<Job>, start: nat, turns: seq<Turn>) returns (d: Driver)
    ensures fresh(d) && d.mode == Watch && d.Now() == Reached(jobs, start, Trace(turns))
    ensures Inv(d.Now()) && Limited(d.Now(), jobs, Trace(turns))
  {
    hide Pass, Complete, Reload, Inv, Limited, Trace, Reached;
    d := new Driver(Watch, jobs, start);
    assert d.Now() == Reached(jobs, start, Trace(turns[..0])) by { ReachedStart(jobs, start); }
    for i := 0 to |turns|
      invariant fresh(d) && d.mode == Watch && d.Now() == Reached(jobs, start, Trace(turns[..i]))
    {
      ReachedTurn(jobs, start, turns, i);
      d.Admission(turns[i].now);
      match turns[i].signal {
        case Elapsed =>
        case Ended(k) =>
          if k < |d.tasks| {
            d.Finish(k);
          }
        case Changed(again, at) => d.Reconfigure(again, at);
      }
    }
    assert turns[..|turns|] == turns;
    ReachedSound(jobs, start, Trace(turns));
  }

  lemma {:induction false} ReachedStart(jobs: seq<Job>, start: nat)
    ensures Reached(jobs, start, Trace([])) == Init(jobs, start)
  {
  }
}
