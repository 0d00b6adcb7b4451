/**
  The scheduling loop of crates/core/src/scheduler.rs: an admission pass over a rotating list of
  entries, completions and reloads, as functions of the loop state and as the object they update.
 */
module Scheduler {
  import opened Order

  datatype Mode = Once | Watch

  /** Times and durations are nanoseconds. */
  datatype Job = Job(
    key: string, scope: string, revision: string, samples: nat, concurrency: nat, scopeConcurrency: nat,
    interval: nat, sampleInterval: nat, jitterPercent: nat)

  datatype Entry = Entry(job: Job, due: nat, samples: nat)

  /** `forwarded` is what the receiver has been given. */
  datatype Loop = Loop(
    entries: seq<Entry>, running: set<string>, scopes: map<string, nat>, tasks: seq<Job>, cursor: nat, forwarded: seq<Job>)

  // ---------------------------------------------------------------- cadence

  const SECOND: nat := 1_000_000_000
  const U64: nat := 0x1_0000_0000_0000_0000

  function Hash(key: string, seed: nat): (h: nat)
    ensures seed < U64 ==> h < U64
    decreases |key|
  {
    if key == [] then seed else Hash(key[1..], ((seed * 1099511628211) % U64 + key[0] as nat) % U64)
  }

  function Spread(interval: nat, percent: nat): (s: nat) {
    var wide := (interval / SECOND) * percent;
    (if wide >= U64 then U64 - 1 else wide) / 100
  }

  /** The jittered interval: whole seconds when there is any spread. */
  function Cadence(interval: nat, percent: nat, key: string, cycle: nat): (d: nat) {
    var spread := Spread(interval, percent);
    if spread == 0 then interval
    else
      var seconds := interval / SECOND + Hash(key, cycle) % (spread * 2 + 1) - spread;
      (if seconds < 1 then 1 else if seconds >= U64 then U64 - 1 else seconds) * SECOND
  }

  /** A jittered interval is never zero and stays within the spread of the configured one. */
  lemma CadenceBounds(interval: nat, percent: nat, key: string, cycle: nat)
    requires interval < U64 * SECOND
    ensures var d := Cadence(interval, percent, key, cycle); var spread := Spread(interval, percent);
      && d <= interval + spread * SECOND
      && (spread > 0 ==> d >= SECOND && d % SECOND == 0 && d + (spread + 1) * SECOND > interval)
  {
    var spread := Spread(interval, percent);
    if spread > 0 {
      assert 0 <= Hash(key, cycle) % (spread * 2 + 1) <= spread * 2;
    }
  }

  // ---------------------------------------------------------------- the admission pass

  /** The smallest configured concurrency, or one. */
  function GlobalLimit(entries: seq<Entry>): (n: nat) {
    if entries == [] then 1
    else if |entries| == 1 then entries[0].job.concurrency
    else
      var rest := GlobalLimit(entries[1..]);
      if entries[0].job.concurrency <= rest then entries[0].job.concurrency else rest
  }

  function Tally(scopes: map<string, nat>, scope: string): (n: nat) {
    if scope in scopes then scopes[scope] else 0
  }

  predicate Finished(mode: Mode, e: Entry) { mode.Once? && e.samples >= e.job.samples }

  /** Due, not in flight and not finished. */
  predicate Wants(mode: Mode, now: nat, running: set<string>, e: Entry) {
    e.due <= now && e.job.key !in running && !Finished(mode, e)
  }

  predicate ScopeFull(scopes: map<string, nat>, e: Entry) { Tally(scopes, e.job.scope) >= e.job.scopeConcurrency }

  const U32_MAX: nat := 0xFFFF_FFFF

  function Rescheduled(mode: Mode, now: nat, e: Entry): (r: Entry)
    ensures r.job == e.job
  {
    Entry(e.job,
          now + (if mode.Once? then e.job.sampleInterval else Cadence(e.job.interval, e.job.jitterPercent, e.job.key, e.samples)),
          if e.samples >= U32_MAX then U32_MAX else e.samples + 1)
  }

  function Admit(s: Loop, i: nat, mode: Mode, now: nat): (r: Loop)
    requires i < |s.entries|
    ensures |r.entries| == |s.entries| && r.cursor == s.cursor
  {
    var job := s.entries[i].job;
    s.(entries := s.entries[i := Rescheduled(mode, now, s.entries[i])],
       running := s.running + {job.key},
       scopes := s.scopes[job.scope := Tally(s.scopes, job.scope) + 1],
       tasks := s.tasks + [job])
  }

  function Place(s: Loop, offset: nat): (i: nat)
    requires s.entries != []
    ensures i < |s.entries|
  {
    (s.cursor + offset) % |s.entries|
  }

  function PassFrom(s: Loop, mode: Mode, now: nat, limit: nat, offset: nat): (r: Loop)
    requires offset <= |s.entries|
    ensures |r.entries| == |s.entries| && r.cursor == s.cursor
    decreases |s.entries| - offset
  {
    if offset == |s.entries| || |s.running| >= limit then s
    else
      var i := Place(s, offset);
      if !Wants(mode, now, s.running, s.entries[i]) || ScopeFull(s.scopes, s.entries[i])
      then PassFrom(s, mode, now, limit, offset + 1)
      else PassFrom(Admit(s, i, mode, now), mode, now, limit, offset + 1)
  }

  /** The entry at an offset is passed over: not wanted now, or its scope is full. */
  predicate Skips(s: Loop, mode: Mode, now: nat, i: nat)
    requires i < |s.entries|
  {
    !Wants(mode, now, s.running, s.entries[i]) || ScopeFull(s.scopes, s.entries[i])
  }

  lemma PassStep(s: Loop, mode: Mode, now: nat, limit: nat, offset: nat)
    requires offset <= |s.entries|
    ensures PassFrom(s, mode, now, limit, offset)
         == if offset == |s.entries| || |s.running| >= limit then s
            else if Skips(s, mode, now, Place(s, offset)) then PassFrom(s, mode, now, limit, offset + 1)
            else PassFrom(Admit(s, Place(s, offset), mode, now), mode, now, limit, offset + 1)
  {
    hide Place, Wants, ScopeFull, Admit;
  }

  function Pass(s: Loop, mode: Mode, now: nat): (r: Loop) {
    var t := PassFrom(s, mode, now, GlobalLimit(s.entries), 0);
    if t.entries == [] then t else t.(cursor := (t.cursor + 1) % |t.entries|)
  }

  // ---------------------------------------------------------------- completion and reload

  predicate Current(entries: seq<Entry>, job: Job) {
    exists i | 0 <= i < |entries| :: entries[i].job.key == job.key && entries[i].job.revision == job.revision
  }

  function Release(scopes: map<string, nat>, scope: string): (r: map<string, nat>) {
    if scope !in scopes then scopes
    else if scopes[scope] <= 1 then scopes - {scope}
    else scopes[scope := scopes[scope] - 1]
  }

  /** Task `i` ends; its result is forwarded while its job is still configured. */
  function Complete(s: Loop, i: nat): (r: Loop)
    requires i < |s.tasks|
  {
    var job := s.tasks[i];
    s.(tasks := s.tasks[..i] + s.tasks[i + 1..],
       running := s.running - {job.key},
       scopes := Release(s.scopes, job.scope),
       forwarded := if Current(s.entries, job) then s.forwarded + [job] else s.forwarded)
  }

  function Started(jobs: seq<Job>, now: nat): (r: seq<Entry>) {
    seq(|jobs|, i requires 0 <= i < |jobs| => Entry(jobs[i], now, 0))
  }

  function Reload(s: Loop, jobs: seq<Job>, now: nat): (r: Loop) { s.(entries := Started(jobs, now)) }

  function Init(jobs: seq<Job>, now: nat): (r: Loop) { Loop(Started(jobs, now), {}, map[], [], 0, []) }

  /** The loop ends on its own only in a one-off run with nothing left. */
  predicate Done(s: Loop, mode: Mode) {
    mode.Once? && s.running == {} && forall i | 0 <= i < |s.entries| :: s.entries[i].samples >= s.entries[i].job.samples
  }

  // ---------------------------------------------------------------- the invariant

  function CountScope(tasks: seq<Job>, scope: string): (n: nat) {
    if tasks == [] then 0 else (if tasks[0].scope == scope then 1 else 0) + CountScope(tasks[1..], scope)
  }

  lemma {:induction false} CountConcat(a: seq<Job>, b: seq<Job>, scope: string)
    ensures CountScope(a + b, scope) == CountScope(a, scope) + CountScope(b, scope)
  {
    if a == [] {
      assert a + b == b;
    } else {
      CountConcat(a[1..], b, scope);
      assert (a + b)[1..] == a[1..] + b;
    }
  }

  predicate DistinctKeys(jobs: seq<Job>) {
    forall i, j :: 0 <= i < j < |jobs| ==> jobs[i].key != jobs[j].key
  }

  function KeySet(jobs: seq<Job>): (r: set<string>) { set i | 0 <= i < |jobs| :: jobs[i].key }

  ghost predicate Tallied(scopes: map<string, nat>, tasks: seq<Job>) {
    forall scope :: (scope in scopes ==> scopes[scope] > 0) && Tally(scopes, scope) == CountScope(tasks, scope)
  }

  /** `running` names the tasks in flight, one per key; each scope counter counts its own. */
  ghost predicate Inv(s: Loop) {
    && DistinctKeys(s.tasks)
    && s.running == KeySet(s.tasks)
    && Tallied(s.scopes, s.tasks)
  }

  lemma {:induction false} KeyCount(jobs: seq<Job>)
    requires DistinctKeys(jobs)
    ensures |KeySet(jobs)| == |jobs|
  {
    if jobs != [] {
      var n := |jobs| - 1;
      KeyCount(jobs[..n]);
      KeySetPush(jobs[..n], jobs[n]);
      assert jobs[..n] + [jobs[n]] == jobs;
    }
  }

  lemma KeySetPush(jobs: seq<Job>, job: Job)
    ensures KeySet(jobs + [job]) == KeySet(jobs) + {job.key}
  {
    assert (jobs + [job])[|jobs|] == job;
    forall k | k in KeySet(jobs)
      ensures k in KeySet(jobs + [job])
    {
      var i :| 0 <= i < |jobs| && jobs[i].key == k;
      assert (jobs + [job])[i].key == k;
    }
  }

  lemma AdmitInv(s: Loop, i: nat, mode: Mode, now: nat)
    requires Inv(s) && i < |s.entries| && s.entries[i].job.key !in s.running
    ensures Inv(Admit(s, i, mode, now))
  {
    hide Rescheduled;
    var job := s.entries[i].job;
    KeySetPush(s.tasks, job);
    forall scope
      ensures CountScope(s.tasks + [job], scope) == CountScope(s.tasks, scope) + if job.scope == scope then 1 else 0
    {
      CountConcat(s.tasks, [job], scope);
    }
  }

  lemma {:induction false} PassFromInv(s: Loop, mode: Mode, now: nat, limit: nat, offset: nat)
    requires Inv(s) && offset <= |s.entries|
    ensures Inv(PassFrom(s, mode, now, limit, offset))
    decreases |s.entries| - offset
  {
    hide Inv, Admit, Place, PassFrom, ScopeFull;
    PassStep(s, mode, now, limit, offset);
    if offset < |s.entries| && |s.running| < limit {
      var i := Place(s, offset);
      if Skips(s, mode, now, i) {
        PassFromInv(s, mode, now, limit, offset + 1);
      } else {
        AdmitInv(s, i, mode, now);
        PassFromInv(Admit(s, i, mode, now), mode, now, limit, offset + 1);
      }
    }
  }

  lemma RemovedTask(tasks: seq<Job>, i: nat)
    requires i < |tasks| && DistinctKeys(tasks)
    ensures var rest := tasks[..i] + tasks[i + 1..];
      DistinctKeys(rest) && KeySet(rest) == KeySet(tasks) - {tasks[i].key}
  {
    var rest := tasks[..i] + tasks[i + 1..];
    forall k | k in KeySet(tasks) - {tasks[i].key}
      ensures k in KeySet(rest)
    {
      var j :| 0 <= j < |tasks| && tasks[j].key == k;
      assert rest[if j < i then j else j - 1].key == k;
    }
  }

  lemma RemovedCount(tasks: seq<Job>, i: nat, scope: string)
    requires i < |tasks|
    ensures CountScope(tasks, scope) == CountScope(tasks[..i] + tasks[i + 1..], scope) + if tasks[i].scope == scope then 1 else 0
  {
    assert tasks == tasks[..i] + ([tasks[i]] + tasks[i + 1..]);
    CountConcat(tasks[..i], [tasks[i]] + tasks[i + 1..], scope);
    CountConcat([tasks[i]], tasks[i + 1..], scope);
    CountConcat(tasks[..i], tasks[i + 1..], scope);
  }

  lemma CompleteInv(s: Loop, i: nat)
    requires Inv(s) && i < |s.tasks|
    ensures Inv(Complete(s, i))
  {
    RemovedTask(s.tasks, i);
    forall scope
      ensures CountScope(s.tasks, scope) == CountScope(s.tasks[..i] + s.tasks[i + 1..], scope) + if s.tasks[i].scope == scope then 1 else 0
    {
      RemovedCount(s.tasks, i, scope);
    }
  }
}
