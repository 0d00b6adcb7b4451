/** The same loop as the object whose fields its steps update, each proved equal to its function. */
module SchedulerDriver {
  import opened Order
  import opened Scheduler

  class Driver {
    const mode: Mode
    var entries: seq<Entry>
    var running: set<string>
    var scopes: map<string, nat>
    var tasks: seq<Job>
    var cursor: nat
    var forwarded: seq<Job>

    constructor (mode: Mode, jobs: seq<Job>, now: nat)
      ensures this.mode == mode && Now() == Init(jobs, now)
    {
      this.mode := mode;
      entries := Started(jobs, now);
      running, scopes, tasks, cursor, forwarded := {}, map[], [], 0, [];
    }

    ghost function Now(): (r: Loop)
      reads this
    {
      Loop(entries, running, scopes, tasks, cursor, forwarded)
    }

    /** The smallest configured concurrency. */
    method Limit() returns (limit: nat)
      ensures limit == GlobalLimit(entries)
    {
      if entries == [] {
        return 1;
      }
      limit := entries[|entries| - 1].job.concurrency;
      var i := |entries| - 1;
      while i > 0
        invariant 0 <= i < |entries|
        invariant limit == GlobalLimit(entries[i..])
      {
        i := i - 1;
        assert entries[i..][1..] == entries[i + 1..];
        if entries[i].job.concurrency <= limit {
          limit := entries[i].job.concurrency;
        }
      }
      assert entries[0..] == entries;
    }

    /** Puts an entry in flight and schedules its next sample. */
    method Start(index: nat, now: nat)
      requires index < |entries|
      modifies `entries, `running, `scopes, `tasks
      ensures Now() == Admit(old(Now()), index, mode, now) && |entries| == |old(entries)|
    {
      hide Rescheduled;
      var entry := entries[index];
      running := running + {entry.job.key};
      scopes := scopes[entry.job.scope := Tally(scopes, entry.job.scope) + 1];
      tasks := tasks + [entry.job];
      entries := entries[index := Rescheduled(mode, now, entry)];
    }

    /** One pass over the entries from the cursor on: starts whatever its limits admit. */
    method Admission(now: nat)
      modifies this
      ensures Now() == Pass(old(Now()), mode, now)
    {
      hide Wants, ScopeFull, Admit;
      var limit := Limit();
      ghost var target := PassFrom(Now(), mode, now, limit, 0);
      var offset := 0;
      while offset < |entries|
        invariant 0 <= offset <= |entries|
        invariant PassFrom(Now(), mode, now, limit, offset) == target
      {
        var index := (cursor + offset) % |entries|;
        var entry := entries[index];
        if |running| >= limit {
          break;
        }
        if !Wants(mode, now, running, entry) || ScopeFull(scopes, entry) {
          offset := offset + 1;
          continue;
        }
        Start(index, now);
        offset := offset + 1;
      }
      assert Now() == target;
      if entries != [] {
        cursor := (cursor + 1) % |entries|;
      }
    }

    /** A task ends: its key and scope are released, and its result forwarded while it is current. */
    method Finish(i: nat)
      requires i < |tasks|
      modifies this
      ensures Now() == Complete(old(Now()), i)
    {
      var job := tasks[i];
      tasks := tasks[..i] + tasks[i + 1..];
      running := running - {job.key};
      if job.scope in scopes {
        scopes := scopes[job.scope := if scopes[job.scope] == 0 then 0 else scopes[job.scope] - 1];
        if scopes[job.scope] == 0 {
          scopes := scopes - {job.scope};
        }
      }
      if Current(entries, job) {
        forwarded := forwarded + [job];
      }
    }

    /** A new configuration restarts every entry; work in flight stays counted. */
    method Reconfigure(jobs: seq<Job>, now: nat)
      modifies `entries
      ensures Now() == Reload(old(Now()), jobs, now)
    {
      entries := Started(jobs, now);
    }

    method IsDone() returns (done: bool)
      ensures done == Done(Now(), mode)
    {
      done := mode.Once? && running == {} && forall i | 0 <= i < |entries| :: entries[i].samples >= entries[i].job.samples;
    }
  }
}
