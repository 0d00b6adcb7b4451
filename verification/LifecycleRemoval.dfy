/** Whole histories again: what must have been absent before a finding is removed. */
module LifecycleRemoval {
  import opened Order
  import opened Evidence
  import opened Pipeline
  import opened Lifecycle
  import opened LifecycleProofs
  import opened LifecycleRuns
  import opened LifecycleHistory

  // ---------------------------------------------------------------- keys

  predicate Plainly(key: string) { '|' !in key }

  ghost predicate PlainKeys(events: seq<Event>) {
    forall i :: 0 <= i < |events| && events[i].Applied? ==> Plainly(events[i].x.job.key)
  }

  function Key(job: string, id: string): (r: string) { job + "|" + id }

  lemma KeyAt(job: string, id: string)
    ensures Key(job, id)[|job|] == '|' && Key(job, id)[..|job|] == job
    ensures forall k :: 0 <= k < |job| ==> Key(job, id)[k] in job
  {
  }

  lemma KeysDiffer(a: string, b: string, i: string, j: string)
    requires Plainly(a) && Plainly(b) && Key(a, i) == Key(b, j)
    ensures a == b
  {
    hide Key;
    KeyAt(a, i);
    KeyAt(b, j);
  }

  lemma {:induction false} BarAfter(job: string, id: string, whole: string)
    requires Plainly(job)
    ensures AfterBarFrom(Key(job, id), whole) == id
  {
    if job == [] {
      assert Key(job, id)[1..] == id;
    } else {
      assert Plainly(job[1..]);
      assert Key(job, id)[1..] == Key(job[1..], id);
      BarAfter(job[1..], id, whole);
    }
  }

  lemma KeyEnds(job: string, id: string)
    ensures EndsWith(Key(job, id), "|" + id)
  {
    assert Key(job, id)[|job|..] == "|" + id;
  }

  // ---------------------------------------------------------------- one step

  /** A key that survives retirement is unchanged and belongs to no retired finding. */
  lemma {:induction false} RetireConfirmations(now: Time, removed: seq<(string, Kind)>, s: Retiring, k: string)
    requires k in Retire(now, removed, s).confirmations
    ensures k in s.confirmations && Retire(now, removed, s).confirmations[k] == s.confirmations[k]
    ensures forall id :: id in RemovedIds(removed) ==> !EndsWith(k, "|" + id)
    decreases |removed|
  {
    hide EndsWith;
    if removed != [] {
      var (id, kind) := removed[0];
      RetireConfirmations(now, removed[1..],
                          Retiring(s.findings - {id}, Forget(s.confirmations, id), s.retired[id := Transition(now, id, kind)]), k);
      forall j | j in RemovedIds(removed) && j != id
        ensures j in RemovedIds(removed[1..])
      {
        var i :| 0 <= i < |removed| && removed[i].0 == j;
        assert removed[1..][i - 1].0 == j;
      }
    }
  }

  ghost function Visit(z: Sizes, s: Snapshot, x: Input, f: Finding, id: string): (r: Option<Confirmation>) {
    VisitedConfirmation(x.job, FactsOf(z, s, x), id, f, Lookup(s.confirmations, ConfirmationKey(x.job, id)))
  }

  lemma SettleKeysConfirmations(job: Job, now: Time, x: Facts, s: Settling, k: string)
    ensures var r := SettleAll(job, now, x, Keys(s.findings.Keys), s);
      && (forall id :: id in s.findings && k == ConfirmationKey(job, id) ==>
            Lookup(r.confirmations, k) == VisitedConfirmation(job, x, id, s.findings[id], Lookup(s.confirmations, k)))
      && ((forall id :: id in s.findings ==> k != ConfirmationKey(job, id)) ==> Lookup(r.confirmations, k) == Lookup(s.confirmations, k))
  {
    hide SettleAll, VisitedConfirmation, ConfirmationKey, Lookup, Less;
    SettleAllConfirmations(job, now, x, Keys(s.findings.Keys), s);
  }

  /** What settling leaves under the key of job `job` and finding `id`. */
  lemma SettledConfirmation(z: Sizes, s: Snapshot, x: Input, job: string, id: string)
    requires Plainly(job) && Plainly(x.job.key) && Key(job, id) in Settled(z, s, x).confirmations
    ensures job == x.job.key && id in Scanned(z, s, x).findings ==>
      Visit(z, s, x, Scanned(z, s, x).findings[id], id) == Some(Settled(z, s, x).confirmations[Key(job, id)])
    ensures job != x.job.key || id !in Scanned(z, s, x).findings ==>
      Key(job, id) in s.confirmations && Settled(z, s, x).confirmations[Key(job, id)] == s.confirmations[Key(job, id)]
  {
    hide SettleAll, VisitedConfirmation, Scanned, FactsOf, Keys, Settled;
    var k := Key(job, id);
    SettledStart(z, s, x);
    SettleKeysConfirmations(x.job, x.now, FactsOf(z, s, x), Start(z, s, x), k);
    forall other | k == ConfirmationKey(x.job, other)
      ensures job == x.job.key && other == id
    {
      KeysDiffer(job, x.job.key, id, other);
      KeyInjective(x.job, id, other);
    }
  }

  /** Confirmations belong to stored findings. */
  ghost predicate Owned(s: Snapshot, job: string, id: string) {
    Key(job, id) in s.confirmations ==> id in s.findings
  }

  lemma ScannedGrows(z: Sizes, s: Snapshot, x: Input, id: string)
    requires id in s.findings
    ensures id in Scanned(z, s, x).findings
  {
    hide Scanned;
    ScannedFrame(z, s, x);
  }

  lemma RetiredKeeps(z: Sizes, s: Snapshot, x: Input, id: string)
    requires id in Scanned(z, s, x).findings && id !in RemovedIds(Settled(z, s, x).removed)
    ensures id in Retired(z, s, x).findings
  {
    hide Scanned, Settled, Retire, RemovedIds;
    var t := Settled(z, s, x);
    RetireOk(x.now, t.removed, Retiring(t.findings, t.confirmations, Scanned(z, s, x).retired));
    SettledKeys(z, s, x);
  }

  lemma StepParts(z: Sizes, s: Snapshot, x: Input)
    ensures Step(z, s, x).confirmations == Retired(z, s, x).confirmations
    ensures forall id :: id in Retired(z, s, x).findings ==> id in Step(z, s, x).findings
  {
    hide Retired, Settled, Scanned, Final, Trim, Downgrade, AllResources, IsOutdated, ExpireResult, Expires;
  }

  lemma RetiredConfirmation(z: Sizes, s: Snapshot, x: Input, job: string, id: string)
    requires Key(job, id) in Retired(z, s, x).confirmations
    ensures Key(job, id) in Settled(z, s, x).confirmations
    ensures Retired(z, s, x).confirmations[Key(job, id)] == Settled(z, s, x).confirmations[Key(job, id)]
    ensures id !in RemovedIds(Settled(z, s, x).removed)
  {
    hide Settled, Scanned, Retire, RemovedIds, EndsWith;
    var t := Settled(z, s, x);
    RetireConfirmations(x.now, t.removed, Retiring(t.findings, t.confirmations, Scanned(z, s, x).retired), Key(job, id));
    KeyEnds(job, id);
  }

  /** A confirmation kept by a step is what the one visit left, or was not visited at all. */
  lemma StepConfirmation(z: Sizes, s: Snapshot, x: Input, job: string, id: string)
    requires Plainly(job) && Plainly(x.job.key) && Owned(s, job, id) && Key(job, id) in Step(z, s, x).confirmations
    ensures id in Scanned(z, s, x).findings && id in Step(z, s, x).findings
    ensures job == x.job.key ==>
      Visit(z, s, x, Scanned(z, s, x).findings[id], id) == Some(Step(z, s, x).confirmations[Key(job, id)])
    ensures job != x.job.key ==>
      Key(job, id) in s.confirmations && Step(z, s, x).confirmations[Key(job, id)] == s.confirmations[Key(job, id)]
  {
    hide Step, Retired, Settled, Scanned, Visit, RemovedIds, Key;
    StepParts(z, s, x);
    RetiredConfirmation(z, s, x, job, id);
    SettledConfirmation(z, s, x, job, id);
    if id in s.findings {
      ScannedGrows(z, s, x, id);
    }
    RetiredKeeps(z, s, x, id);
  }

  /** The other events keep a confirmation as it is, with its finding, or drop it. */
  lemma PassiveConfirmation(z: Sizes, s: Snapshot, e: Event, job: string, id: string)
    requires !e.Applied? && Plainly(job) && Owned(s, job, id) && Key(job, id) in After(z, s, e).confirmations
    ensures Key(job, id) in s.confirmations && After(z, s, e).confirmations[Key(job, id)] == s.confirmations[Key(job, id)]
    ensures id in After(z, s, e).findings && !e.Begun?
  {
    hide Trim, JobFreshness, Selected, Concerns, IsOutdated, ExpireResult, Expires;
    if e.Rescoped? {
      BarAfter(job, id, Key(job, id));
    }
  }

  // ---------------------------------------------------------------- the history

  /** Step `n` is a result of `job` in which the finding, as then known, is authoritatively absent. */
  ghost predicate AbsentStep(z: Sizes, events: seq<Event>, n: nat, job: string, id: string, t: Time)
    requires n < |events|
  {
    && events[n].Applied? && events[n].x.job.key == job && Seen(z, events, n, id).Some?
    && Absent(events[n].x.job, FactsOf(z, At(z, events, n), events[n].x), Seen(z, events, n, id).value)
    && t == AbsenceTime(FactsOf(z, At(z, events, n), events[n].x), Seen(z, events, n, id).value)
  }

  /** Event `n` begins no new run, and no result of `job` in it shows the resource of the finding. */
  ghost predicate NotShown(z: Sizes, events: seq<Event>, n: nat, job: string, id: string)
    requires n < |events|
  {
    && !events[n].Begun?
    && (events[n].Applied? && events[n].x.job.key == job ==>
      Seen(z, events, n, id).Some?
      && Seen(z, events, n, id).value.resource !in FactsOf(z, At(z, events, n), events[n].x).present)
  }

  /** The absences before event `n` that back a confirmation opened at event `first`. */
  ghost predicate AbsenceRecord(z: Sizes, events: seq<Event>, n: nat, job: string, id: string, first: nat, steps: seq<nat>, times: seq<Time>)
    requires n <= |events|
  {
    && first < n && Seen(z, events, first, id).Some?
    && |steps| == |times| && Ordered(steps, first, n)
    && Increasing(times, Seen(z, events, first, id).value.observedAt)
    && (forall i :: 0 <= i < |steps| ==> AbsentStep(z, events, steps[i], job, id, times[i]))
    && forall k :: first <= k < n ==> NotShown(z, events, k, job, id)
  }

  ghost predicate Backs(c: Confirmation, origin: Finding, times: seq<Time>) {
    c.count <= |times| && c.lastAt == LastOr(times, origin.observedAt)
  }

  lemma AbsenceExtends(z: Sizes, events: seq<Event>, n: nat, job: string, id: string, first: nat, steps: seq<nat>, times: seq<Time>)
    requires n < |events| && AbsenceRecord(z, events, n, job, id, first, steps, times) && NotShown(z, events, n, job, id)
    ensures AbsenceRecord(z, events, n + 1, job, id, first, steps, times)
  {
    hide At, AbsentStep, NotShown, Seen, Increasing;
  }

  lemma AbsenceOpens(z: Sizes, events: seq<Event>, n: nat, job: string, id: string)
    requires n < |events| && Seen(z, events, n, id).Some? && NotShown(z, events, n, job, id)
    ensures AbsenceRecord(z, events, n + 1, job, id, n, [], [])
  {
    hide At, AbsentStep, NotShown, Seen;
  }

  lemma AbsencePush(z: Sizes, events: seq<Event>, n: nat, job: string, id: string, first: nat, steps: seq<nat>, times: seq<Time>, t: Time)
    requires n < |events| && AbsenceRecord(z, events, n + 1, job, id, first, steps, times) && Ordered(steps, first, n)
    requires AbsentStep(z, events, n, job, id, t) && t > LastOr(times, Seen(z, events, first, id).value.observedAt)
    ensures AbsenceRecord(z, events, n + 1, job, id, first, steps + [n], times + [t])
  {
    hide At, AbsentStep, NotShown, Seen, Increasing, LastOr, Ordered;
    OrderedPush(steps, first, n);
    IncreasingPush(times, Seen(z, events, first, id).value.observedAt, t);
  }

  lemma RecordShape(z: Sizes, events: seq<Event>, n: nat, job: string, id: string, first: nat, steps: seq<nat>, times: seq<Time>)
    requires n <= |events| && AbsenceRecord(z, events, n, job, id, first, steps, times)
    ensures first < n && Seen(z, events, first, id).Some? && |steps| == |times| && Ordered(steps, first, n)
  {
    hide At, AbsentStep, NotShown, Seen, Increasing, Ordered;
  }

  /** What a visit that leaves a confirmation says about its result. */
  lemma VisitMeans(job: Job, x: Facts, id: string, f: Finding, c: Option<Confirmation>)
    requires VisitedConfirmation(job, x, id, f, c).Some?
    ensures f.resource !in x.present
    ensures var r := VisitedConfirmation(job, x, id, f, c).value;
      || c == Some(r)
      || (Absent(job, x, f) && r == Confirm(if c.Some? then c.value else Confirmation(0, f.observedAt), AbsenceTime(x, f)))
  {
    hide Absent, AbsenceTime, Confirm, ClearTime;
  }

  /** The record of one visit: opened or extended, and one longer when the absence is newer. */
  lemma VisitRecord(z: Sizes, events: seq<Event>, n: nat, id: string, c: Option<Confirmation>, first0: nat, steps0: seq<nat>, times0: seq<Time>)
      returns (first: nat, steps: seq<nat>, times: seq<Time>)
    requires n < |events| && events[n].Applied? && Seen(z, events, n, id).Some?
    requires c.Some? ==> AbsenceRecord(z, events, n, events[n].x.job.key, id, first0, steps0, times0)
    requires c.Some? ==> Backs(c.value, Seen(z, events, first0, id).value, times0)
    requires var x := FactsOf(z, At(z, events, n), events[n].x);
      VisitedConfirmation(events[n].x.job, x, id, Seen(z, events, n, id).value, c).Some?
    ensures AbsenceRecord(z, events, n + 1, events[n].x.job.key, id, first, steps, times)
    ensures Backs(VisitedConfirmation(events[n].x.job, FactsOf(z, At(z, events, n), events[n].x), id, Seen(z, events, n, id).value, c).value,
                  Seen(z, events, first, id).value, times)
  {
    hide AbsenceRecord, FactsOf, Seen, At, Absent, AbsenceTime, VisitedConfirmation, Ordered, LastOr;
    var job := events[n].x.job;
    var facts := FactsOf(z, At(z, events, n), events[n].x);
    var f := Seen(z, events, n, id).value;
    VisitMeans(job, facts, id, f, c);
    var r := VisitedConfirmation(job, facts, id, f, c).value;
    assert NotShown(z, events, n, job.key, id);
    if c.Some? {
      first, steps, times := first0, steps0, times0;
      RecordShape(z, events, n, job.key, id, first, steps, times);
      AbsenceExtends(z, events, n, job.key, id, first, steps, times);
    } else {
      first, steps, times := n, [], [];
      AbsenceOpens(z, events, n, job.key, id);
      NoLast(f.observedAt);
    }
    var was := if c.Some? then c.value else Confirmation(0, f.observedAt);
    assert Backs(was, Seen(z, events, first, id).value, times);
    assert Ordered(steps, first, n) by { Trivially(n); }
    var t := AbsenceTime(facts, f);
    if c != Some(r) && t > was.lastAt {
      AbsencePush(z, events, n, job.key, id, first, steps, times, t);
      LastPush(times, t, Seen(z, events, first, id).value.observedAt);
      steps, times := steps + [n], times + [t];
    }
  }

  lemma NoLast(t: Time)
    ensures LastOr([], t) == t
  {
  }

  lemma LastPush(times: seq<Time>, t: Time, start: Time)
    ensures LastOr(times + [t], start) == t
  {
  }

  lemma Trivially(n: nat)
    ensures Ordered([], n, n)
  {
  }

  /** Every stored confirmation is backed by its record of absences. */
  lemma {:induction false} ConfirmationRecord(z: Sizes, events: seq<Event>, n: nat, job: string, id: string)
      returns (first: nat, steps: seq<nat>, times: seq<Time>)
    requires n <= |events| && PlainKeys(events) && Plainly(job)
    ensures Owned(At(z, events, n), job, id)
    ensures Key(job, id) in At(z, events, n).confirmations ==>
      && AbsenceRecord(z, events, n, job, id, first, steps, times)
      && Backs(At(z, events, n).confirmations[Key(job, id)], Seen(z, events, first, id).value, times)
    decreases n
  {
    hide AbsenceRecord, Step, Seen, RetainScope, ExpireSnapshot, Trim, Key, Backs, Plainly;
    first, steps, times := 0, [], [];
    if n > 0 {
      first, steps, times := ConfirmationRecord(z, events, n - 1, job, id);
      var s, e := At(z, events, n - 1), events[n - 1];
      if Key(job, id) in At(z, events, n).confirmations {
        if e.Applied? {
          first, steps, times := AppliedConfirmation(z, events, n - 1, job, id, first, steps, times);
        } else {
          PassiveConfirmation(z, s, e, job, id);
          Unvisited(z, events, n - 1, job, id, first, steps, times);
        }
      }
    }
  }

  lemma Unvisited(z: Sizes, events: seq<Event>, n: nat, job: string, id: string, first: nat, steps: seq<nat>, times: seq<Time>)
    requires n < |events| && (events[n].Applied? ==> events[n].x.job.key != job) && !events[n].Begun?
    requires AbsenceRecord(z, events, n, job, id, first, steps, times)
    ensures AbsenceRecord(z, events, n + 1, job, id, first, steps, times)
  {
    hide AbsenceRecord, Seen, At, FactsOf;
    AbsenceExtends(z, events, n, job, id, first, steps, times);
  }

  lemma AppliedConfirmation(z: Sizes, events: seq<Event>, n: nat, job: string, id: string, first0: nat, steps0: seq<nat>, times0: seq<Time>)
      returns (first: nat, steps: seq<nat>, times: seq<Time>)
    requires n < |events| && PlainKeys(events) && Plainly(job) && events[n].Applied?
    requires Owned(At(z, events, n), job, id)
    requires Key(job, id) in Step(z, At(z, events, n), events[n].x).confirmations
    requires Key(job, id) in At(z, events, n).confirmations ==>
      && AbsenceRecord(z, events, n, job, id, first0, steps0, times0)
      && Backs(At(z, events, n).confirmations[Key(job, id)], Seen(z, events, first0, id).value, times0)
    ensures id in Step(z, At(z, events, n), events[n].x).findings
    ensures AbsenceRecord(z, events, n + 1, job, id, first, steps, times)
    ensures Backs(Step(z, At(z, events, n), events[n].x).confirmations[Key(job, id)], Seen(z, events, first, id).value, times)
  {
    hide AbsenceRecord, Step, Backs, Plainly, Scanned, FactsOf, VisitedConfirmation, At;
    var s, x := At(z, events, n), events[n].x;
    StepConfirmation(z, s, x, job, id);
    if x.job.key == job {
      first, steps, times := VisitRecord(z, events, n, id, Lookup(s.confirmations, Key(job, id)), first0, steps0, times0);
    } else {
      first, steps, times := first0, steps0, times0;
      Unvisited(z, events, n, job, id, first, steps, times);
    }
  }

  ghost predicate EnoughAbsence(z: Sizes, events: seq<Event>, n: nat, job: string, id: string, count: nat,
      first: nat, steps: seq<nat>, times: seq<Time>)
    requires n < |events|
  {
    AbsenceRecord(z, events, n + 1, job, id, first, steps, times) && |steps| >= count
  }

  /**
    A step of a job announces a removal only when the finding is absent now and at least
    `removalConfirmations` results of that same job showed it absent: at strictly increasing
    times, each with every evidence operation complete, and in between neither a result of the
    job showing the resource nor the beginning of a new run.
   */
  lemma RemovalEarned(z: Sizes, events: seq<Event>, n: nat, t: Transition)
    requires n < |events| && PlainKeys(events) && events[n].Applied?
    requires t in Emitted(z, At(z, events, n), events[n].x) && t.kind.Removed?
    ensures Seen(z, events, n, t.finding).Some?
    ensures Absent(events[n].x.job, FactsOf(z, At(z, events, n), events[n].x), Seen(z, events, n, t.finding).value)
    ensures exists first, steps, times ::
      EnoughAbsence(z, events, n, events[n].x.job.key, t.finding, events[n].x.job.removalConfirmations, first, steps, times)
  {
    hide AbsenceRecord, FactsOf, Scanned, At, ClearTime, VisitedConfirmation, Absent, Emitted, Backs;
    var s, x := At(z, events, n), events[n].x;
    var id := t.finding;
    EmittedMeans(z, s, x, t);
    var first, steps, times := ConfirmationRecord(z, events, n, x.job.key, id);
    first, steps, times := VisitRecord(z, events, n, id, Lookup(s.confirmations, Key(x.job.key, id)), first, steps, times);
    BacksCount(z, events, n + 1, x.job.key, id, first, steps, times,
               VisitedConfirmation(x.job, FactsOf(z, s, x), id, Seen(z, events, n, id).value, Lookup(s.confirmations, Key(x.job.key, id))).value);
    assert EnoughAbsence(z, events, n, x.job.key, id, x.job.removalConfirmations, first, steps, times);
  }

  lemma BacksCount(z: Sizes, events: seq<Event>, n: nat, job: string, id: string, first: nat, steps: seq<nat>, times: seq<Time>, c: Confirmation)
    requires n <= |events| && AbsenceRecord(z, events, n, job, id, first, steps, times)
    requires first < |events| && Seen(z, events, first, id).Some? ==> Backs(c, Seen(z, events, first, id).value, times)
    ensures |steps| >= c.count
  {
    hide Seen, At, AbsentStep, NotShown, Ordered, Increasing;
  }
}
