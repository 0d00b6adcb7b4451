/**
  Safety over whole runs: what must have been observed before a finding recovers or is removed.
 */
module LifecycleRuns {
  import opened Order
  import opened Evidence
  import opened Pipeline
  import opened Lifecycle
  import opened LifecycleProofs

  // ---------------------------------------------------------------- what one scan does to a finding

  /** A finding the policy reported is fresh; one it did not report is as it was. */
  ghost predicate ScanFrame(a: Scan, b: Scan) {
    && a.current <= b.current
    && (forall id :: id in a.findings ==> id in b.findings)
    && (forall id :: id in b.findings && id !in b.current ==> id in a.findings && b.findings[id] == a.findings[id])
    && (Fresh(a) ==> Fresh(b))
    && (Plain(a) ==> Plain(b))
  }

  /** The scan itself neither recovers, removes nor expires. */
  ghost predicate Plain(s: Scan) {
    forall i :: 0 <= i < |s.transitions| ==> Detection(s.transitions[i].kind)
  }

  predicate Detection(k: Kind) { k.New? || k.Reappeared? || k.Worsened? }

  lemma AnnouncedPlain(job: Job, now: Time, o: Observation, f: Finding, s: Scan)
    requires Plain(s)
    ensures forall i :: 0 <= i < |Announced(job, now, o, f, s)| ==> Detection(Announced(job, now, o, f, s)[i].kind)
  {
  }

  ghost predicate Fresh(s: Scan) {
    forall id :: id in s.findings && id in s.current ==> s.findings[id].clearCount == 0
  }

  lemma ReportFrame(z: Sizes, job: Job, now: Time, o: Observation, prior: Option<Observation>, f: Finding, s: Scan)
    ensures ScanFrame(s, Report(z, job, now, o, prior, f, s))
    ensures Report(z, job, now, o, prior, f, s).clear == s.clear
  {
    hide Report, Announced;
    ReportFindings(z, job, now, o, prior, f, s);
    var r := Report(z, job, now, o, prior, f, s);
    if Fits(job, f, s) {
      if Plain(s) {
        AnnouncedPlain(job, now, o, f, s);
      }
      assert forall id :: id in r.findings && id !in r.current ==> id in s.findings && r.findings[id] == s.findings[id];
    }
  }

  lemma FrameTrans(a: Scan, b: Scan, c: Scan)
    requires ScanFrame(a, b) && ScanFrame(b, c)
    ensures ScanFrame(a, c)
  {
  }

  lemma {:induction false} ReportAllFrame(z: Sizes, job: Job, now: Time, o: Observation, prior: Option<Observation>, fs: seq<Finding>, s: Scan)
    ensures ScanFrame(s, ReportAll(z, job, now, o, prior, fs, s))
    ensures ReportAll(z, job, now, o, prior, fs, s).clear == s.clear
    decreases |fs|
  {
    hide Report;
    if fs != [] {
      var next := Report(z, job, now, o, prior, fs[0], s);
      ReportFrame(z, job, now, o, prior, fs[0], s);
      ReportAllFrame(z, job, now, o, prior, fs[1..], next);
      FrameTrans(s, next, ReportAll(z, job, now, o, prior, fs[1..], next));
    }
  }

  /** A recorded clear reading comes from an observation the policy rated clear. */
  ghost predicate ClearFrom(job: Job, policy: Policy, complete: set<string>, previous: Option<CheckResult>,
                            obs: seq<Observation>, n: nat, clear: map<string, Reading>)
    requires n <= |obs|
  {
    forall k :: k in clear ==> exists i :: 0 <= i < n && IsReading(job, policy, complete, previous, obs, i, k, clear[k])
  }

  ghost predicate IsReading(job: Job, policy: Policy, complete: set<string>, previous: Option<CheckResult>,
                            obs: seq<Observation>, i: nat, resource: string, reading: Reading)
    requires i < |obs|
  {
    && obs[i].resource == resource
    && obs[i].operation == reading.operation && obs[i].observedAt == reading.at
    && obs[i].operation in complete
    && Clears(Evaluate(job, policy, previous, i, obs[i]).health)
  }

  lemma AssessFrame(z: Sizes, job: Job, policy: Policy, now: Time, complete: set<string>, previous: Option<CheckResult>,
                    i: nat, obs: seq<Observation>, s: Scan)
    requires i < |obs| && ClearFrom(job, policy, complete, previous, obs, i, s.clear)
    ensures ScanFrame(s, Assess(z, job, policy, now, complete, previous, i, obs[i], s))
    ensures ClearFrom(job, policy, complete, previous, obs, i + 1, Assess(z, job, policy, now, complete, previous, i, obs[i], s).clear)
  {
    hide ReportAll, ScanFrame, Evaluate;
    var o := obs[i];
    var e := Evaluate(job, policy, previous, i, o);
    var prior := Prior(previous, o.resource);
    var rated := Rate(job, complete, o, e, s);
    ReportAllFrame(z, job, now, o, prior, e.findings, rated);
    RatedFrame(s, rated, ReportAll(z, job, now, o, prior, e.findings, rated));
    forall k | k in rated.clear
      ensures exists j :: 0 <= j < i + 1 && IsReading(job, policy, complete, previous, obs, j, k, rated.clear[k])
    {
      if o.operation in complete && Clears(e.health) && k == o.resource {
        assert IsReading(job, policy, complete, previous, obs, i, k, rated.clear[k]);
      } else {
        assert k in s.clear && rated.clear[k] == s.clear[k];
      }
    }
  }

  lemma RatedFrame(s: Scan, rated: Scan, r: Scan)
    requires rated.findings == s.findings && rated.current == s.current && rated.transitions == s.transitions && ScanFrame(rated, r)
    ensures ScanFrame(s, r)
  {
  }

  lemma {:induction false} AssessAllFrame(z: Sizes, job: Job, policy: Policy, now: Time, complete: set<string>, previous: Option<CheckResult>,
                                          i: nat, obs: seq<Observation>, s: Scan)
    requires i <= |obs| && ClearFrom(job, policy, complete, previous, obs, i, s.clear)
    ensures ScanFrame(s, AssessAll(z, job, policy, now, complete, previous, i, obs, s))
    ensures ClearFrom(job, policy, complete, previous, obs, |obs|, AssessAll(z, job, policy, now, complete, previous, i, obs, s).clear)
    decreases |obs| - i
  {
    hide Assess, ClearFrom;
    if i < |obs| {
      var next := Assess(z, job, policy, now, complete, previous, i, obs[i], s);
      AssessFrame(z, job, policy, now, complete, previous, i, obs, s);
      AssessAllFrame(z, job, policy, now, complete, previous, i + 1, obs, next);
      FrameTrans(s, next, AssessAll(z, job, policy, now, complete, previous, i + 1, obs, next));
    }
  }

  // ---------------------------------------------------------------- what settling does to a finding

  /** The one visit a finding gets. */
  function Visited(job: Job, x: Facts, id: string, f: Finding): (r: Finding) {
    if id in x.current || ClearTime(x, f).None? then f else Cleared(job, f, ClearTime(x, f).value)
  }

  lemma SettleOneFindings(job: Job, now: Time, x: Facts, id: string, s: Settling)
    requires id in s.findings
    ensures var r := SettleOne(job, now, x, id, s);
      r.findings[id] == Visited(job, x, id, s.findings[id])
      && forall k :: k in s.findings && k != id ==> r.findings[k] == s.findings[k]
  {
    hide AbsentNow;
  }

  lemma {:induction false} SettleAllFindings(job: Job, now: Time, x: Facts, ids: seq<string>, s: Settling)
    requires forall i :: 0 <= i < |ids| ==> ids[i] in s.findings
    requires forall i, j :: 0 <= i < j < |ids| ==> ids[i] != ids[j]
    ensures forall k :: k in s.findings ==>
      SettleAll(job, now, x, ids, s).findings[k] == if k in ids then Visited(job, x, k, s.findings[k]) else s.findings[k]
    decreases |ids|
  {
    hide SettleOne, Visited;
    if ids != [] {
      SettleOneFindings(job, now, x, ids[0], s);
      var next := SettleOne(job, now, x, ids[0], s);
      SettleAllFindings(job, now, x, ids[1..], next);
      assert ids == [ids[0]] + ids[1..];
    }
  }

  // ---------------------------------------------------------------- confirmations

  /** The confirmation one visit leaves for its own key. */
  function VisitedConfirmation(job: Job, x: Facts, id: string, f: Finding, c: Option<Confirmation>): (r: Option<Confirmation>) {
    if f.resource in x.present then None
    else if id in x.current || ClearTime(x, f).Some? || !Absent(job, x, f) || (f.resource !in x.past && c.None?) then c
    else Some(Confirm(if c.Some? then c.value else Confirmation(0, f.observedAt), AbsenceTime(x, f)))
  }

  /** An authoritative absence: complete evidence, and the resource not in the result. */
  predicate Absent(job: Job, x: Facts, f: Finding) {
    && (job.check.Inventory? || job.check.Kubernetes?)
    && CanRemove(x, f)
    && f.resource !in x.present
    && StartsWith(f.resource, job.target + "/")
  }

  function Lookup(m: map<string, Confirmation>, k: string): (r: Option<Confirmation>) {
    if k in m then Some(m[k]) else None
  }

  lemma KeyInjective(job: Job, a: string, b: string)
    ensures ConfirmationKey(job, a) == ConfirmationKey(job, b) ==> a == b
  {
    var p := job.key + "|";
    assert ConfirmationKey(job, a)[|p|..] == a && ConfirmationKey(job, b)[|p|..] == b;
  }

  lemma SettleOneConfirmations(job: Job, now: Time, x: Facts, id: string, s: Settling)
    requires id in s.findings
    ensures var r := SettleOne(job, now, x, id, s);
      && Lookup(r.confirmations, ConfirmationKey(job, id))
           == VisitedConfirmation(job, x, id, s.findings[id], Lookup(s.confirmations, ConfirmationKey(job, id)))
      && forall k :: k != ConfirmationKey(job, id) ==> Lookup(r.confirmations, k) == Lookup(s.confirmations, k)
  {
    hide ConfirmationKey, ClearTime, CanRemove, AbsenceTime, Cleared;
  }

  lemma {:induction false} SettleAllConfirmations(job: Job, now: Time, x: Facts, ids: seq<string>, s: Settling)
    requires forall i :: 0 <= i < |ids| ==> ids[i] in s.findings
    requires forall i, j :: 0 <= i < j < |ids| ==> ids[i] != ids[j]
    ensures forall k :: k in s.findings && k in ids ==>
      Lookup(SettleAll(job, now, x, ids, s).confirmations, ConfirmationKey(job, k))
        == VisitedConfirmation(job, x, k, s.findings[k], Lookup(s.confirmations, ConfirmationKey(job, k)))
    ensures forall key :: (forall i :: 0 <= i < |ids| ==> key != ConfirmationKey(job, ids[i])) ==>
      Lookup(SettleAll(job, now, x, ids, s).confirmations, key) == Lookup(s.confirmations, key)
    decreases |ids|
  {
    hide SettleOne, VisitedConfirmation, ConfirmationKey, Lookup, Visited;
    if ids != [] {
      var next := SettleOne(job, now, x, ids[0], s);
      SettleOneConfirmations(job, now, x, ids[0], s);
      SettleOneFindings(job, now, x, ids[0], s);
      SettleAllConfirmations(job, now, x, ids[1..], next);
      assert ids == [ids[0]] + ids[1..];
      forall k | k in ids
        ensures k != ids[0] ==> ConfirmationKey(job, k) != ConfirmationKey(job, ids[0]) && k in ids[1..]
        ensures forall i :: k == ids[0] && 0 <= i < |ids[1..]| ==> ConfirmationKey(job, k) != ConfirmationKey(job, ids[1..][i])
      {
        KeyInjective(job, k, ids[0]);
        forall i | 0 <= i < |ids[1..]| && k == ids[0]
          ensures ConfirmationKey(job, k) != ConfirmationKey(job, ids[1..][i])
        {
          KeyInjective(job, k, ids[1..][i]);
        }
      }
    }
  }

  // ---------------------------------------------------------------- what settling announces

  /** Why a settling transition was emitted. */
  ghost predicate Because(job: Job, x: Facts, s: Settling, t: Transition) {
    && t.finding in s.findings && t.finding !in x.current
    && var f := s.findings[t.finding];
      match t.kind
      case Recovered => ClearTime(x, f).Some? && Increment(f.clearCount) >= job.recoverConfirmations
      case Removed =>
        var c := VisitedConfirmation(job, x, t.finding, f, Lookup(s.confirmations, ConfirmationKey(job, t.finding)));
        Absent(job, x, f) && ClearTime(x, f).None? && c.Some? && c.value.count >= job.removalConfirmations
      case _ => false
  }

  lemma SettleOneNotes(job: Job, now: Time, x: Facts, id: string, s: Settling, t: Transition)
    requires id in s.findings && t in SettleOne(job, now, x, id, s).transitions
    ensures t in s.transitions || (t.finding == id && Because(job, x, s, t))
  {
    hide ConfirmationKey, ClearTime, CanRemove, AbsenceTime;
  }

  lemma BecauseFrame(job: Job, now: Time, x: Facts, id: string, s: Settling, t: Transition)
    requires id in s.findings && t.finding != id && Because(job, x, SettleOne(job, now, x, id, s), t)
    ensures Because(job, x, s, t)
  {
    hide SettleOne, VisitedConfirmation, ConfirmationKey, ClearTime, Absent, Visited, Lookup;
    SettleOneFindings(job, now, x, id, s);
    SettleOneConfirmations(job, now, x, id, s);
    KeyInjective(job, id, t.finding);
  }

  lemma {:induction false} SettleAllNotes(job: Job, now: Time, x: Facts, ids: seq<string>, s: Settling, t: Transition)
    requires forall i :: 0 <= i < |ids| ==> ids[i] in s.findings
    requires forall i, j :: 0 <= i < j < |ids| ==> ids[i] != ids[j]
    requires t in SettleAll(job, now, x, ids, s).transitions
    ensures t in s.transitions || (t.finding in ids && Because(job, x, s, t))
    decreases |ids|
  {
    hide SettleOne, Because;
    if ids != [] {
      var next := SettleOne(job, now, x, ids[0], s);
      SettleAllNotes(job, now, x, ids[1..], next, t);
      if t in next.transitions {
        SettleOneNotes(job, now, x, ids[0], s, t);
      } else {
        var i :| 0 <= i < |ids[1..]| && ids[1..][i] == t.finding;
        assert ids[i + 1] == t.finding;
        BecauseFrame(job, now, x, ids[0], s, t);
      }
    }
  }

  // ---------------------------------------------------------------- one step

  lemma ScannedFrame(z: Sizes, s: Snapshot, x: Input)
    ensures ScanFrame(InitialScan(z, s, x), Scanned(z, s, x)) && Fresh(Scanned(z, s, x)) && Plain(Scanned(z, s, x))
    ensures ClearFrom(x.job, x.policy, CompleteIds(Validity(z, s, x).operations), Stored(s.results, x.job.key),
                      Bounded(z, s, x).observations, |Bounded(z, s, x).observations|, Scanned(z, s, x).clear)
  {
    hide AssessAll, Validity, Bounded, CompleteIds, SumFindings;
    AssessAllFrame(z, x.job, x.policy, x.now, CompleteIds(Validity(z, s, x).operations), Stored(s.results, x.job.key),
                   0, Bounded(z, s, x).observations, InitialScan(z, s, x));
  }

  /** The policy reported the finding in this step, and it is stored. */
  ghost predicate Detects(z: Sizes, s: Snapshot, x: Input, id: string) {
    id in Scanned(z, s, x).findings && id in Scanned(z, s, x).current
  }

  /**
    The stored result shows the finding's resource under one of the finding's own operations,
    complete, at time `at`, and the policy rated that observation clear.
   */
  ghost predicate ClearAt(z: Sizes, s: Snapshot, x: Input, f: Finding, at: Time) {
    exists i :: 0 <= i < |Final(z, s, x).observations| && ClearObservation(z, s, x, f, at, i)
  }

  ghost predicate ClearObservation(z: Sizes, s: Snapshot, x: Input, f: Finding, at: Time, i: nat)
    requires i < |Final(z, s, x).observations|
  {
    var o := Final(z, s, x).observations[i];
    && o.resource == f.resource && o.observedAt == at
    && o.operation in f.evidence && o.operation in CompleteIds(Final(z, s, x).operations)
    && Clears(Evaluate(x.job, x.policy, Stored(s.results, x.job.key), i, o).health)
  }

  lemma ClearTimeMeans(z: Sizes, s: Snapshot, x: Input, f: Finding)
    requires ClearTime(FactsOf(z, s, x), f).Some?
    ensures ClearAt(z, s, x, f, ClearTime(FactsOf(z, s, x), f).value)
    ensures ClearTime(FactsOf(z, s, x), f).value > f.observedAt
  {
    hide Scanned, Bounded, Validity, CompleteIds, Evaluate, Stored;
    ScannedFrame(z, s, x);
    var facts := FactsOf(z, s, x);
    var scan := Scanned(z, s, x);
    assert f.resource in scan.clear && scan.clear[f.resource] == facts.clear[f.resource];
    assert Final(z, s, x).observations == Bounded(z, s, x).observations;
    var i :| 0 <= i < |Bounded(z, s, x).observations|
      && IsReading(x.job, x.policy, CompleteIds(Validity(z, s, x).operations), Stored(s.results, x.job.key),
                   Bounded(z, s, x).observations, i, f.resource, scan.clear[f.resource]);
    assert ClearObservation(z, s, x, f, scan.clear[f.resource].at, i);
  }

  lemma SettledFindings(z: Sizes, s: Snapshot, x: Input)
    ensures forall id :: id in Scanned(z, s, x).findings ==>
      id in Settled(z, s, x).findings
      && Settled(z, s, x).findings[id] == Visited(x.job, FactsOf(z, s, x), id, Scanned(z, s, x).findings[id])
  {
    hide Scanned, FactsOf, SettleAll, Visited, Less;
    var scan := Scanned(z, s, x);
    SettleAllFindings(x.job, x.now, FactsOf(z, s, x), Keys(scan.findings.Keys),
                      Settling(scan.findings, s.confirmations, scan.transitions, []));
  }

  /** Two findings that differ only in bookkeeping. */
  ghost predicate SameEpisode(a: Finding, b: Finding) {
    a.resource == b.resource && a.evidence == b.evidence && a.observedAt == b.observedAt && a.clearCount == b.clearCount
  }

  lemma ExpireFinding(s: Snapshot, freshness: nat, now: Time, id: string)
    requires id in ExpireSnapshot(s, freshness, now).findings
    ensures id in s.findings && SameEpisode(ExpireSnapshot(s, freshness, now).findings[id], s.findings[id])
  {
    hide IsOutdated, Limit, ExpireResult, Expires;
  }

  lemma RetiredFinding(z: Sizes, s: Snapshot, x: Input, id: string)
    requires id in Retired(z, s, x).findings
    ensures id in Settled(z, s, x).findings && Retired(z, s, x).findings[id] == Settled(z, s, x).findings[id]
    ensures id !in RemovedIds(Settled(z, s, x).removed)
    ensures id in Scanned(z, s, x).findings
  {
    hide Scanned, Settled, Retire, RemovedIds;
    var t := Settled(z, s, x);
    RetireOk(x.now, t.removed, Retiring(t.findings, t.confirmations, Scanned(z, s, x).retired));
    SettledKeys(z, s, x);
  }

  lemma SettledKeys(z: Sizes, s: Snapshot, x: Input)
    ensures Settled(z, s, x).findings.Keys == Scanned(z, s, x).findings.Keys
  {
    hide Scanned, FactsOf, Less;
  }

  lemma ScannedFinding(z: Sizes, s: Snapshot, x: Input, id: string)
    requires id in Scanned(z, s, x).findings
    ensures !Detects(z, s, x, id) ==> id in s.findings && Scanned(z, s, x).findings[id] == s.findings[id]
    ensures Detects(z, s, x, id) ==> Scanned(z, s, x).findings[id].clearCount == 0
  {
    hide Scanned;
    ScannedFrame(z, s, x);
  }

  /** A stored finding is what its one visit left, up to staleness. */
  lemma StepFinding(z: Sizes, s: Snapshot, x: Input, id: string)
    requires id in Step(z, s, x).findings
    ensures id in Scanned(z, s, x).findings
    ensures SameEpisode(Step(z, s, x).findings[id], Visited(x.job, FactsOf(z, s, x), id, Scanned(z, s, x).findings[id]))
  {
    hide Retired, Settled, Scanned, FactsOf, Visited, Final, Trim, Downgrade, ExpireSnapshot, AllResources;
    ExpireFinding(Replaced(z, s, x), x.job.freshness, x.now, id);
    RetiredFinding(z, s, x, id);
    SettledFindings(z, s, x);
  }

  lemma EmittedSettled(z: Sizes, s: Snapshot, x: Input, t: Transition)
    requires t in Emitted(z, s, x) && !t.kind.WentStale?
    ensures t in Settled(z, s, x).transitions
  {
    hide Settled, Replaced, Expired;
    if t in Expired(Replaced(z, s, x), x.job.freshness, x.now) {
      NotExpiry(Replaced(z, s, x), x.job.freshness, x.now, t);
    }
  }

  ghost function Start(z: Sizes, s: Snapshot, x: Input): (r: Settling) {
    Settling(Scanned(z, s, x).findings, s.confirmations, Scanned(z, s, x).transitions, [])
  }

  lemma PlainHasNo(s: Scan, t: Transition)
    requires Plain(s) && (t.kind.Recovered? || t.kind.Removed?)
    ensures t !in s.transitions
  {
  }

  lemma SettleKeysNotes(job: Job, now: Time, x: Facts, s: Settling, t: Transition)
    requires t in SettleAll(job, now, x, Keys(s.findings.Keys), s).transitions
    ensures t in s.transitions || Because(job, x, s, t)
  {
    hide SettleAll, Because, Less;
    SettleAllNotes(job, now, x, Keys(s.findings.Keys), s, t);
  }

  lemma SettledStart(z: Sizes, s: Snapshot, x: Input)
    ensures Settled(z, s, x) == SettleAll(x.job, x.now, FactsOf(z, s, x), Keys(Start(z, s, x).findings.Keys), Start(z, s, x))
  {
    hide Scanned, SettleAll, FactsOf;
  }

  /** Every recovery or removal a step announces has its reason in the stored result. */
  lemma EmittedMeans(z: Sizes, s: Snapshot, x: Input, t: Transition)
    requires t in Emitted(z, s, x) && (t.kind.Recovered? || t.kind.Removed?)
    ensures Because(x.job, FactsOf(z, s, x), Start(z, s, x), t)
  {
    hide Scanned, Settled, SettleAll, Because, Emitted, FactsOf, ScanFrame, Fresh, Plain, ClearFrom, Keys;
    EmittedSettled(z, s, x, t);
    ScannedFrame(z, s, x);
    PlainHasNo(Scanned(z, s, x), t);
    SettledStart(z, s, x);
    SettleKeysNotes(x.job, x.now, FactsOf(z, s, x), Start(z, s, x), t);
  }

  lemma NotExpiry(s: Snapshot, freshness: nat, now: Time, t: Transition)
    requires t in Expired(s, freshness, now)
    ensures t.kind == WentStale
  {
    hide Less;
    ExpireNotesKind(s.findings, Keys(s.findings.Keys), freshness, now);
  }

  lemma {:induction false} ExpireNotesKind(findings: map<string, Finding>, ids: seq<string>, freshness: nat, now: Time)
    requires forall i :: 0 <= i < |ids| ==> ids[i] in findings
    ensures forall t :: t in ExpireNotes(findings, ids, freshness, now) ==> t.kind == WentStale
  {
    if ids != [] {
      ExpireNotesKind(findings, ids[1..], freshness, now);
    }
  }
}
