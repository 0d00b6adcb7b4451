/**
  Whole histories of the finding lifecycle: a recovery or a removal is announced only after
  enough independent evidence has been seen since the finding was last detected.
 */
module LifecycleHistory {
  import opened Order
  import opened Evidence
  import opened Pipeline
  import opened Lifecycle
  import opened LifecycleProofs
  import opened LifecycleRuns

  /** Everything that changes a snapshot. One `apply` is one or two `Applied` events. */
  datatype Event =
    | Applied(x: Input)
    | Aged(freshness: nat, now: Time)
    | Trimmed(limit: nat)
    | Begun
    | Rescoped(jobs: seq<Job>, moved: set<string>, reselected: set<string>)

  const EMPTY: Snapshot := Snapshot(map[], map[], map[], map[], map[], map[])

  ghost function After(z: Sizes, s: Snapshot, e: Event): (r: Snapshot) {
    match e
    case Applied(x) => Step(z, s, x)
    case Aged(freshness, now) => ExpireSnapshot(s, freshness, now)
    case Trimmed(limit) => s.(retired := Trim(s.retired, limit))
    case Begun => Begin(s)
    case Rescoped(jobs, moved, reselected) => RetainScope(s, jobs, moved, reselected)
  }

  /** The snapshot before event `n` of a history that starts empty. */
  ghost function At(z: Sizes, events: seq<Event>, n: nat): (r: Snapshot)
    requires n <= |events|
  {
    if n == 0 then EMPTY else After(z, At(z, events, n - 1), events[n - 1])
  }

  /** The finding as event `n` settles it: after its scan, before its clear readings count. */
  ghost function Seen(z: Sizes, events: seq<Event>, n: nat, id: string): (r: Option<Finding>)
    requires n < |events|
  {
    if events[n].Applied? && id in Scanned(z, At(z, events, n), events[n].x).findings
    then Some(Scanned(z, At(z, events, n), events[n].x).findings[id]) else None
  }

  ghost predicate DetectedAt(z: Sizes, events: seq<Event>, n: nat, id: string)
    requires n < |events|
  {
    events[n].Applied? && Detects(z, At(z, events, n), events[n].x, id)
  }

  predicate Increasing(times: seq<Time>, after: Time) {
    && (forall i :: 0 <= i < |times| ==> times[i] > after)
    && (forall i, j :: 0 <= i < j < |times| ==> times[i] < times[j])
  }

  predicate Ordered(steps: seq<nat>, first: nat, end: nat) {
    && (forall i :: 0 <= i < |steps| ==> first <= steps[i] < end)
    && (forall i, j :: 0 <= i < j < |steps| ==> steps[i] < steps[j])
  }

  function LastOr(times: seq<Time>, start: Time): (r: Time) {
    if times == [] then start else times[|times| - 1]
  }

  lemma OrderedPush(steps: seq<nat>, first: nat, end: nat)
    requires Ordered(steps, first, end) && first <= end
    ensures Ordered(steps, first, end + 1) && Ordered(steps + [end], first, end + 1)
  {
  }

  lemma IncreasingPush(times: seq<Time>, after: Time, t: Time)
    requires Increasing(times, after) && t > LastOr(times, after)
    ensures Increasing(times + [t], after) && LastOr(times + [t], after) == t
  {
  }

  // ---------------------------------------------------------------- recovery

  /** Step `n` shows the resource of `f` clear at time `t` under a complete operation of `f`. */
  ghost predicate ClearStep(z: Sizes, events: seq<Event>, n: nat, f: Finding, t: Time)
    requires n < |events|
  {
    events[n].Applied? && ClearAt(z, At(z, events, n), events[n].x, f, t)
  }

  /** Event `n` counts a clear reading of a finding it does not detect. */
  ghost predicate ClearsAt(z: Sizes, events: seq<Event>, n: nat, id: string)
    requires n < |events|
  {
    && events[n].Applied? && Seen(z, events, n, id).Some? && !DetectedAt(z, events, n, id)
    && ClearTime(FactsOf(z, At(z, events, n), events[n].x), Seen(z, events, n, id).value).Some?
  }

  /** The clear readings before event `n` since the latest detection. */
  ghost function ClearSteps(z: Sizes, events: seq<Event>, n: nat, id: string): (c: nat)
    requires n <= |events|
  {
    if n == 0 || DetectedAt(z, events, n - 1, id) then 0
    else ClearSteps(z, events, n - 1, id) + if ClearsAt(z, events, n - 1, id) then 1 else 0
  }

  /** The largest count a finding can carry. */
  function Capped(n: nat): (c: nat) { if n >= U32_MAX then U32_MAX else n }

  /**
    The clear readings a finding has seen before event `n`: `d` is its latest detection, and
    `steps` are all later steps that show it clear, at strictly increasing times after the
    detected one.
   */
  ghost predicate ClearRecord(z: Sizes, events: seq<Event>, n: nat, id: string, d: nat, steps: seq<nat>, times: seq<Time>)
    requires n <= |events|
  {
    && d < n && DetectedAt(z, events, d, id)
    && (forall k :: d < k < n ==> !DetectedAt(z, events, k, id))
    && |steps| == |times| && Ordered(steps, d + 1, n)
    && Increasing(times, Seen(z, events, d, id).value.observedAt)
    && |steps| == ClearSteps(z, events, n, id)
    && (forall i :: 0 <= i < |steps| ==> ClearsAt(z, events, steps[i], id))
    && forall i :: 0 <= i < |steps| ==> ClearStep(z, events, steps[i], Seen(z, events, d, id).value, times[i])
  }

  /** The stored finding carries exactly the count of its record. */
  ghost predicate Carries(f: Finding, detected: Finding, times: seq<Time>) {
    && f.resource == detected.resource && f.evidence == detected.evidence
    && f.clearCount == Capped(|times|) && f.observedAt == LastOr(times, detected.observedAt)
  }

  lemma SameClear(z: Sizes, s: Snapshot, x: Input, f: Finding, g: Finding, t: Time)
    requires ClearAt(z, s, x, f, t) && f.resource == g.resource && f.evidence == g.evidence
    ensures ClearAt(z, s, x, g, t)
  {
    hide Final, Evaluate, CompleteIds;
    var i :| 0 <= i < |Final(z, s, x).observations| && ClearObservation(z, s, x, f, t, i);
    assert ClearObservation(z, s, x, g, t, i);
  }

  lemma RecordQuiet(z: Sizes, events: seq<Event>, n: nat, id: string, d: nat, steps: seq<nat>, times: seq<Time>)
    requires n < |events| && ClearRecord(z, events, n, id, d, steps, times)
    requires !DetectedAt(z, events, n, id) && !ClearsAt(z, events, n, id)
    ensures ClearRecord(z, events, n + 1, id, d, steps, times)
  {
    hide At, DetectedAt, ClearStep, Seen, Increasing, ClearsAt;
  }

  lemma RecordStart(z: Sizes, events: seq<Event>, n: nat, id: string)
    requires n < |events| && DetectedAt(z, events, n, id)
    ensures ClearRecord(z, events, n + 1, id, n, [], [])
  {
    hide At, ClearStep, Seen, ClearsAt;
  }

  lemma RecordPush(z: Sizes, events: seq<Event>, n: nat, id: string, d: nat, steps: seq<nat>, times: seq<Time>, t: Time)
    requires n < |events| && ClearRecord(z, events, n, id, d, steps, times)
    requires !DetectedAt(z, events, n, id) && ClearsAt(z, events, n, id)
    requires ClearStep(z, events, n, Seen(z, events, d, id).value, t)
    requires t > LastOr(times, Seen(z, events, d, id).value.observedAt)
    ensures ClearRecord(z, events, n + 1, id, d, steps + [n], times + [t])
  {
    hide At, DetectedAt, ClearStep, Seen, Increasing, LastOr, ClearsAt;
    Detection(z, events, n, id, d, steps, times);
    OrderedPush(steps, d + 1, n);
    IncreasingPush(times, Seen(z, events, d, id).value.observedAt, t);
  }

  lemma Detection(z: Sizes, events: seq<Event>, n: nat, id: string, d: nat, steps: seq<nat>, times: seq<Time>)
    requires n <= |events| && ClearRecord(z, events, n, id, d, steps, times)
    ensures d < n && Seen(z, events, d, id).Some? && |steps| == |times| == ClearSteps(z, events, n, id)
  {
    hide At, ClearStep, Increasing, Ordered, ClearSteps;
  }

  /** Every stored finding has a record of its clear readings since it was last detected. */
  lemma {:induction false} FindingRecord(z: Sizes, events: seq<Event>, n: nat, id: string)
      returns (d: nat, steps: seq<nat>, times: seq<Time>)
    requires n <= |events| && id in At(z, events, n).findings
    ensures ClearRecord(z, events, n, id, d, steps, times)
    ensures Carries(At(z, events, n).findings[id], Seen(z, events, d, id).value, times)
    decreases n, 0
  {
    hide ClearRecord, Step, Seen, RetainScope, ExpireSnapshot, Trim, Carries;
    var s := At(z, events, n - 1);
    if events[n - 1].Applied? {
      d, steps, times := AppliedRecord(z, events, n - 1, id);
    } else {
      PassiveFinding(z, s, events[n - 1], id);
      d, steps, times := FindingRecord(z, events, n - 1, id);
      RecordQuiet(z, events, n - 1, id, d, steps, times);
      Detection(z, events, n, id, d, steps, times);
      CarriesOn(s.findings[id], At(z, events, n).findings[id], Seen(z, events, d, id).value, times);
    }
  }

  lemma CarriesOn(f: Finding, g: Finding, detected: Finding, times: seq<Time>)
    requires Carries(f, detected, times) && SameEpisode(g, f)
    ensures Carries(g, detected, times)
  {
  }

  /** Expiry, trimming, a new run and a new scope leave the record of a finding they keep. */
  lemma PassiveFinding(z: Sizes, s: Snapshot, e: Event, id: string)
    requires !e.Applied? && id in After(z, s, e).findings
    ensures id in s.findings && SameEpisode(After(z, s, e).findings[id], s.findings[id])
  {
    hide ExpireSnapshot, Trim, JobFreshness, Selected, Concerns;
    if e.Aged? {
      ExpireFinding(s, e.freshness, e.now, id);
    }
  }

  lemma {:induction false} AppliedRecord(z: Sizes, events: seq<Event>, n: nat, id: string)
      returns (d: nat, steps: seq<nat>, times: seq<Time>)
    requires n < |events| && events[n].Applied? && id in Step(z, At(z, events, n), events[n].x).findings
    ensures ClearRecord(z, events, n + 1, id, d, steps, times)
    ensures Carries(Step(z, At(z, events, n), events[n].x).findings[id], Seen(z, events, d, id).value, times)
    decreases n, 2
  {
    hide ClearRecord, Step, Scanned, FactsOf, At, ClearTime, Visited;
    var s, x := At(z, events, n), events[n].x;
    StepFinding(z, s, x, id);
    CurrentOf(z, s, x);
    d, steps, times := ScannedRecord(z, events, n, id);
    var f := Scanned(z, s, x).findings[id];
    VisitedCarries(x.job, FactsOf(z, s, x), id, Scanned(z, s, x).findings[id]);
    if !DetectedAt(z, events, n, id) && ClearTime(FactsOf(z, s, x), Scanned(z, s, x).findings[id]).Some? {
      steps, times := PushClear(z, events, n, id, d, steps, times);
    } else if !DetectedAt(z, events, n, id) {
      RecordQuiet(z, events, n, id, d, steps, times);
    }
  }

  lemma CurrentOf(z: Sizes, s: Snapshot, x: Input)
    ensures FactsOf(z, s, x).current == Scanned(z, s, x).current
  {
    hide Scanned, Final;
  }

  lemma VisitedCarries(job: Job, x: Facts, id: string, f: Finding)
    ensures id in x.current || ClearTime(x, f).None? ==> Visited(job, x, id, f) == f
    ensures id !in x.current && ClearTime(x, f).Some? ==>
      var g := Visited(job, x, id, f);
      g.resource == f.resource && g.evidence == f.evidence && g.clearCount == Increment(f.clearCount) && g.observedAt == ClearTime(x, f).value
  {
    hide ClearTime;
  }

  /** The record of a finding as event `n` finds it: fresh when it is detected there. */
  lemma {:induction false} ScannedRecord(z: Sizes, events: seq<Event>, n: nat, id: string)
      returns (d: nat, steps: seq<nat>, times: seq<Time>)
    requires n < |events| && events[n].Applied? && id in Scanned(z, At(z, events, n), events[n].x).findings
    ensures DetectedAt(z, events, n, id) ==> ClearRecord(z, events, n + 1, id, d, steps, times)
    ensures !DetectedAt(z, events, n, id) ==> ClearRecord(z, events, n, id, d, steps, times)
    ensures Carries(Scanned(z, At(z, events, n), events[n].x).findings[id], Seen(z, events, d, id).value, times)
    decreases n, 1
  {
    hide ClearRecord, Scanned, At;
    ScannedFinding(z, At(z, events, n), events[n].x, id);
    if DetectedAt(z, events, n, id) {
      d, steps, times := n, [], [];
      RecordStart(z, events, n, id);
    } else {
      d, steps, times := FindingRecord(z, events, n, id);
    }
  }

  lemma SeenScanned(z: Sizes, events: seq<Event>, n: nat, id: string)
    requires n < |events| && events[n].Applied? && id in Scanned(z, At(z, events, n), events[n].x).findings
    ensures Seen(z, events, n, id) == Some(Scanned(z, At(z, events, n), events[n].x).findings[id])
  {
    hide Scanned, At;
  }

  lemma PushClear(z: Sizes, events: seq<Event>, n: nat, id: string, d: nat, steps: seq<nat>, times: seq<Time>)
      returns (steps': seq<nat>, times': seq<Time>)
    requires n < |events| && events[n].Applied? && !DetectedAt(z, events, n, id)
    requires id in Scanned(z, At(z, events, n), events[n].x).findings
    requires ClearRecord(z, events, n, id, d, steps, times)
    requires Carries(Scanned(z, At(z, events, n), events[n].x).findings[id], Seen(z, events, d, id).value, times)
    requires ClearTime(FactsOf(z, At(z, events, n), events[n].x), Scanned(z, At(z, events, n), events[n].x).findings[id]).Some?
    ensures steps' == steps + [n] && |times'| == |times| + 1
    ensures times'[|times|] == ClearTime(FactsOf(z, At(z, events, n), events[n].x), Scanned(z, At(z, events, n), events[n].x).findings[id]).value
    ensures ClearRecord(z, events, n + 1, id, d, steps', times')
  {
    hide ClearRecord, FactsOf, Scanned, At, ClearTime, DetectedAt, Seen, ClearAt;
    var s, x := At(z, events, n), events[n].x;
    var f := Scanned(z, s, x).findings[id];
    var t := ClearTime(FactsOf(z, s, x), f).value;
    ClearTimeMeans(z, s, x, f);
    Detection(z, events, n, id, d, steps, times);
    SeenScanned(z, events, n, id);
    SameClear(z, s, x, f, Seen(z, events, d, id).value, t);
    RecordPush(z, events, n, id, d, steps, times, t);
    steps', times' := steps + [n], times + [t];
  }

  ghost predicate EnoughClear(z: Sizes, events: seq<Event>, n: nat, id: string, count: nat, d: nat, steps: seq<nat>, times: seq<Time>)
    requires n < |events|
  {
    ClearRecord(z, events, n + 1, id, d, steps, times) && |steps| >= count && |steps| > 0 && steps[|steps| - 1] == n
  }

  /**
    A step announces a recovery only after at least `recoverConfirmations` clear readings since
    the latest detection, this step's among them: at strictly increasing times later than the
    detected observation, each under a complete operation named in the finding's evidence.
   */
  lemma RecoveryEarned(z: Sizes, events: seq<Event>, n: nat, t: Transition)
    requires n < |events| && events[n].Applied?
    requires t in Emitted(z, At(z, events, n), events[n].x) && t.kind.Recovered?
    ensures exists d, steps, times :: EnoughClear(z, events, n, t.finding, events[n].x.job.recoverConfirmations, d, steps, times)
  {
    hide ClearRecord, FactsOf, Scanned, At, ClearTime, DetectedAt, Seen, Emitted;
    var s, x := At(z, events, n), events[n].x;
    var id := t.finding;
    EmittedMeans(z, s, x, t);
    CurrentOf(z, s, x);
    NotCurrent(z, events, n, id);
    var d, steps, times := ScannedRecord(z, events, n, id);
    Detection(z, events, n, id, d, steps, times);
    steps, times := PushClear(z, events, n, id, d, steps, times);
    assert EnoughClear(z, events, n, id, x.job.recoverConfirmations, d, steps, times);
  }

  lemma NotCurrent(z: Sizes, events: seq<Event>, n: nat, id: string)
    requires n < |events| && events[n].Applied? && id !in Scanned(z, At(z, events, n), events[n].x).current
    ensures !DetectedAt(z, events, n, id)
  {
    hide Scanned;
  }

  // ---------------------------------------------------------------- the transition log

  /** What an event announces. */
  ghost function EmittedAt(z: Sizes, events: seq<Event>, n: nat): (ts: seq<Transition>)
    requires n < |events|
  {
    match events[n]
    case Applied(x) => Emitted(z, At(z, events, n), x)
    case Aged(freshness, now) => Expired(At(z, events, n), freshness, now)
    case _ => []
  }

  ghost function Log(z: Sizes, events: seq<Event>, n: nat): (ts: seq<Transition>)
    requires n <= |events|
  {
    if n == 0 then [] else Log(z, events, n - 1) + EmittedAt(z, events, n - 1)
  }

  lemma RescopeWf(s: Snapshot, jobs: seq<Job>, moved: set<string>, reselected: set<string>)
    requires Wf(s)
    ensures Wf(RetainScope(s, jobs, moved, reselected))
  {
    hide Concerns, Selected, JobFreshness, OwnedConfirmations, Observed, KeptResults;
  }

  lemma TrimWf(s: Snapshot, limit: nat)
    requires Wf(s)
    ensures Wf(s.(retired := Trim(s.retired, limit)))
  {
    hide Trim;
    TrimOk(s.retired, limit);
  }

  lemma EventWf(z: Sizes, s: Snapshot, e: Event)
    requires Wf(s)
    ensures Wf(After(z, s, e))
  {
    hide Step, ExpireSnapshot, Trim, RetainScope, Wf, Begin;
    match e
    case Applied(x) => StepReplays(z, s, x);
    case Aged(freshness, now) => ExpireKeepsWf(s, freshness, now);
    case Trimmed(limit) => TrimWf(s, limit);
    case Begun => BeginWf(s);
    case Rescoped(jobs, moved, reselected) => RescopeWf(s, jobs, moved, reselected);
  }

  /** Every reachable snapshot stores findings under their identifier and retires none it holds. */
  lemma {:induction false} RunWf(z: Sizes, events: seq<Event>, n: nat)
    requires n <= |events|
    ensures Wf(At(z, events, n))
  {
    hide After, Wf;
    if n > 0 {
      RunWf(z, events, n - 1);
      EventWf(z, At(z, events, n - 1), events[n - 1]);
    } else {
      EmptyWf();
    }
  }

  /** No applied job allows more than `m` findings. */
  predicate CappedBy(events: seq<Event>, n: nat, m: nat)
    requires n <= |events|
  {
    forall i :: 0 <= i < n && events[i].Applied? ==> events[i].x.job.maxFindings <= m
  }

  lemma EventBounded(z: Sizes, s: Snapshot, e: Event, m: nat)
    requires Wf(s) && |s.findings| <= m && |s.retired| <= m
    requires e.Applied? ==> e.x.job.maxFindings <= m
    ensures |After(z, s, e).findings| <= m && |After(z, s, e).retired| <= m
  {
    hide Step, Trim, RetainScope, Wf;
    match e
    case Applied(x) => StepReplays(z, s, x);
    case Aged(freshness, now) => ExpireKeepsWf(s, freshness, now);
    case Trimmed(limit) =>
      TrimOk(s.retired, limit);
      Fewer(Trim(s.retired, limit), s.retired);
    case Begun =>
    case Rescoped(jobs, moved, reselected) => RescopeBounded(s, jobs, moved, reselected);
  }

  lemma RescopeBounded(s: Snapshot, jobs: seq<Job>, moved: set<string>, reselected: set<string>)
    ensures |RetainScope(s, jobs, moved, reselected).findings| <= |s.findings|
    ensures |RetainScope(s, jobs, moved, reselected).retired| <= |s.retired|
  {
    hide Concerns, Selected, JobFreshness, OwnedConfirmations, Observed, KeptResults;
    var r := RetainScope(s, jobs, moved, reselected);
    Fewer(r.findings, s.findings);
    Fewer(r.retired, s.retired);
  }

  lemma Fewer<T>(a: map<string, T>, b: map<string, T>)
    requires a.Keys <= b.Keys
    ensures |a| <= |b|
  {
    assert |b.Keys - a.Keys| == |b.Keys| - |a.Keys|;
    assert |a| == |a.Keys| && |b| == |b.Keys|;
  }

  /** In every history findings and retired entries stay apart and both within the largest limit applied. */
  lemma {:induction false} RunBounded(z: Sizes, events: seq<Event>, n: nat, m: nat)
    requires n <= |events| && CappedBy(events, n, m)
    ensures |At(z, events, n).findings| <= m && |At(z, events, n).retired| <= m
    ensures At(z, events, n).findings.Keys !! At(z, events, n).retired.Keys
  {
    hide After;
    if n > 0 {
      RunBounded(z, events, n - 1, m);
      RunWf(z, events, n - 1);
      EventBounded(z, At(z, events, n - 1), events[n - 1], m);
    }
    RunWf(z, events, n);
  }

  lemma EmptyWf()
    ensures Wf(EMPTY)
  {
  }

  lemma BeginWf(s: Snapshot)
    requires Wf(s)
    ensures Wf(Begin(s))
  {
  }

  /** Each event's announcements are legal where they are made, and replay to its new findings. */
  lemma EventReplays(z: Sizes, events: seq<Event>, n: nat)
    requires n < |events|
    ensures LegalAll(LedgerOf(At(z, events, n)), EmittedAt(z, events, n))
    ensures !events[n].Rescoped? ==>
      ReplayAll(LedgerOf(At(z, events, n)), EmittedAt(z, events, n)).ids == At(z, events, n + 1).findings.Keys
  {
    hide Step, Emitted, Expired, ExpireSnapshot, Trim, RetainScope, Wf, At;
    RunWf(z, events, n);
    var s := At(z, events, n);
    assert At(z, events, n + 1) == After(z, s, events[n]) by { AtNext(z, events, n); }
    match events[n]
    case Applied(x) => StepReplays(z, s, x);
    case Aged(freshness, now) =>
      FindingIds(s);
      ExpiredOk(LedgerOf(s), s, freshness, now);
      ExpireKeepsWf(s, freshness, now);
    case _ =>
  }

  lemma AtNext(z: Sizes, events: seq<Event>, n: nat)
    requires n < |events|
    ensures At(z, events, n + 1) == After(z, At(z, events, n), events[n])
  {
    hide After;
  }

  lemma FindingIds(s: Snapshot)
    requires Wf(s)
    ensures forall id :: id in s.findings ==> s.findings[id].id == id
  {
  }

  /**
    Between reloads the transition log tells the whole story: replayed from nothing it names
    exactly the findings the snapshot holds.
   */
  lemma {:induction false} LogReplays(z: Sizes, events: seq<Event>, n: nat)
    requires n <= |events| && forall i :: 0 <= i < n ==> !events[i].Rescoped?
    ensures ReplayAll(Ledger({}, {}), Log(z, events, n)).ids == At(z, events, n).findings.Keys
  {
    hide EmittedAt, After, LegalAll;
    if n > 0 {
      hide At, ReplayAll;
      LogReplays(z, events, n - 1);
      EventReplays(z, events, n - 1);
      var empty := Ledger({}, {});
      ReplayConcat(empty, Log(z, events, n - 1), EmittedAt(z, events, n - 1));
      ReplayIds(ReplayAll(empty, Log(z, events, n - 1)), LedgerOf(At(z, events, n - 1)), EmittedAt(z, events, n - 1));
    }
  }
}
