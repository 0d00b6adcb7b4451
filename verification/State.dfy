/**
  The snapshot as the object the program updates in place. Every method is proved to leave the
  snapshot the functions of `Lifecycle` describe, and to return the transitions they list.
 */
module LifecycleState {
  import opened Order
  import opened Evidence
  import opened Pipeline
  import opened Lifecycle
  import opened LifecycleProofs

  // ---------------------------------------------------------------- sums over the maps

  lemma {:induction false} ResultsWithout(z: Sizes, m: map<string, CheckResult>, k: string)
    requires k in m
    ensures SumResults(z, m) == ResultBytes(z, m[k]) + SumResults(z, m - {k})
    decreases |m|
  {
    hide ResultBytes;
    var j :| j in m && SumResults(z, m) == ResultBytes(z, m[j]) + SumResults(z, m - {j});
    if j != k {
      ResultsWithout(z, m - {j}, k);
      ResultsWithout(z, m - {k}, j);
      assert m - {j} - {k} == m - {k} - {j};
    }
  }

  lemma {:induction false} AssetsWithout(m: map<string, CheckResult>, k: string)
    requires k in m
    ensures SumAssets(m) == |m[k].observations| + SumAssets(m - {k})
    decreases |m|
  {
    var j :| j in m && SumAssets(m) == |m[j].observations| + SumAssets(m - {j});
    if j != k {
      AssetsWithout(m - {j}, k);
      AssetsWithout(m - {k}, j);
      assert m - {j} - {k} == m - {k} - {j};
    }
  }

  method ResultTotals(z: Sizes, results: map<string, CheckResult>) returns (bytes: nat, assets: nat)
    ensures bytes == SumResults(z, results) && assets == SumAssets(results)
  {
    hide ResultBytes, SumResults, SumAssets;
    bytes, assets := 0, 0;
    var rest := results;
    while rest != map[]
      invariant bytes + SumResults(z, rest) == SumResults(z, results)
      invariant assets + SumAssets(rest) == SumAssets(results)
      decreases |rest|
    {
      var k :| k in rest;
      ResultsWithout(z, rest, k);
      AssetsWithout(rest, k);
      bytes, assets := bytes + ResultBytes(z, rest[k]), assets + |rest[k].observations|;
      rest := rest - {k};
    }
    NoResults(z);
  }

  lemma NoResults(z: Sizes)
    ensures SumResults(z, map[]) == 0 && SumAssets(map[]) == 0 && SumFindings(z, map[]) == 0
  {
  }

  method DiagnosticTotal(z: Sizes, findings: map<string, Finding>) returns (bytes: nat)
    ensures bytes == SumFindings(z, findings)
  {
    hide FindingBytes, SumFindings;
    bytes := 0;
    var rest := findings;
    while rest != map[]
      invariant bytes + SumFindings(z, rest) == SumFindings(z, findings)
      decreases |rest|
    {
      var k :| k in rest;
      SumWithout(z, rest, k);
      bytes := bytes + FindingBytes(z, rest[k]);
      rest := rest - {k};
    }
    NoResults(z);
  }

  // ---------------------------------------------------------------- the pipeline

  method ListFindings(findings: map<string, Finding>) returns (r: seq<Finding>)
    ensures r == Lifecycle.Listed(findings)
  {
    hide Less;
    var ids := KeysInOrder(findings.Keys);
    r := seq(|ids|, i requires 0 <= i < |ids| => findings[ids[i]]);
  }

  method Prepare(z: Sizes, job: Job, previous: Option<CheckResult>, findings: seq<Finding>, elsewhere: nat,
                 correlate: Correlate, collected: CheckResult, now: Time) returns (r: CheckResult)
    ensures r == Prepared(z, job, previous, findings, elsewhere, correlate, collected, now)
  {
    hide Retained, Reconciled, Truncate, Validated;
    r := Retain(z, job, previous, collected);
    r := Reconcile(job, previous, findings, r);
    r := TruncateResult(z, r, SatSub(job.memoryBytes / 2, elsewhere), job.maxAssets);
    r := r.(observations := correlate(r.observations));
    r := ValidateSource(r, job.freshness, now);
  }

  method Bound(result: CheckResult, remaining: nat) returns (r: CheckResult)
    ensures r == Cut(result, remaining)
  {
    r := result;
    if |r.observations| > remaining {
      var operations := MarkTruncated(r.operations);
      r := r.(observations := r.observations[..remaining], operations := operations);
    }
  }

  // ---------------------------------------------------------------- retirement

  ghost predicate IsOldestFirst(oldest: seq<(Time, string)>, retired: map<string, Transition>) {
    StrictTotal(Older) && oldest == Sorted(Ages(retired), Older)
  }

  method OldestFirst(retired: map<string, Transition>) returns (oldest: seq<(Time, string)>)
    ensures IsOldestFirst(oldest, retired) && |oldest| == |retired|
  {
    hide StrictTotal, Older;
    OlderStrictTotal();
    oldest := InOrder(set k | k in retired :: (retired[k].at, k), Older);
  }

  ghost function Gone(oldest: seq<(Time, string)>, n: nat): (r: set<string>)
    requires n <= |oldest|
  {
    set j | 0 <= j < n :: oldest[j].1
  }

  lemma NoneGone(m: map<string, Transition>, oldest: seq<(Time, string)>)
    ensures m == m - Gone(oldest, 0)
  {
  }

  lemma OneMoreGone(m: map<string, Transition>, oldest: seq<(Time, string)>, n: nat)
    requires n < |oldest|
    ensures m - Gone(oldest, n + 1) == (m - Gone(oldest, n)) - {oldest[n].1}
  {
    assert Gone(oldest, n + 1) == Gone(oldest, n) + {oldest[n].1};
  }

  lemma TrimIsGone(m: map<string, Transition>, limit: nat, oldest: seq<(Time, string)>)
    requires IsOldestFirst(oldest, m) && |oldest| == |m|
    ensures Trim(m, limit) == m - Gone(oldest, SatSub(|m|, limit))
  {
    hide StrictTotal, Older, Ages, Sorted;
    assert (set i | 0 <= i < SatSub(|m|, limit) :: Sorted(Ages(m), Older)[i].1) == Gone(oldest, SatSub(|m|, limit));
  }

  // ---------------------------------------------------------------- expiry

  /** Some of the first `n` observations is outdated, rated and came from the operation. */
  ghost predicate OutdatedBy(obs: seq<Observation>, n: nat, limit: nat, now: Time, rated: set<string>, operation: string)
    requires n <= |obs|
  {
    exists i :: 0 <= i < n && Outdated(limit, now, obs[i]) && obs[i].resource in rated && obs[i].operation == operation
  }

  ghost function Aged(limit: nat, now: Time, result: CheckResult, rated: set<string>, n: nat, op: Operation): (r: Operation)
    requires n <= |result.observations|
  {
    if op.coverage.Complete? && (Seconds(now - op.observedAt) > limit || OutdatedBy(result.observations, n, limit, now, rated, op.id))
    then op.(coverage := Stale) else op
  }

  lemma AgedOne(limit: nat, now: Time, result: CheckResult, rated: set<string>, n: nat, op: Operation)
    requires n < |result.observations|
    ensures var o := result.observations[n]; var a := Aged(limit, now, result, rated, n, op);
      Aged(limit, now, result, rated, n + 1, op)
        == if Outdated(limit, now, o) && o.resource in rated && a.id == o.operation && a.coverage.Complete? then a.(coverage := Stale) else a
  {
    hide Outdated;
  }

  lemma AgedAll(limit: nat, now: Time, result: CheckResult, rated: set<string>, ops: seq<Operation>)
    requires |ops| == |result.operations|
    requires forall k :: 0 <= k < |ops| ==> ops[k] == Aged(limit, now, result, rated, |result.observations|, result.operations[k])
    ensures result.(operations := ops) == ExpireResult(limit, now, rated, result)
  {
    hide Outdated;
    var outdated := OutdatedOperations(result.observations, limit, now, rated);
    forall k | 0 <= k < |ops|
      ensures ops[k] == ExpireOperation(limit, now, outdated, result.operations[k])
    {
      assert OutdatedBy(result.observations, |result.observations|, limit, now, rated, result.operations[k].id)
        <==> result.operations[k].id in outdated;
    }
  }

  ghost predicate Names(obs: seq<Observation>, n: nat, limit: nat, now: Time, resource: string)
    requires n <= |obs|
  {
    exists i :: 0 <= i < n && obs[i].resource == resource && Outdated(limit, now, obs[i])
  }

  /** Ratings of resources named by an outdated observation among the first `n` become unknown. */
  ghost function Unrated(health: map<string, Health>, obs: seq<Observation>, n: nat, limit: nat, now: Time): (r: map<string, Health>)
    requires n <= |obs|
  {
    map h | h in health :: if Names(obs, n, limit, now, h) then Unknown else health[h]
  }

  lemma UnratedNone(health: map<string, Health>, obs: seq<Observation>, limit: nat, now: Time)
    ensures Unrated(health, obs, 0, limit, now) == health
  {
  }

  lemma UnratedOne(health: map<string, Health>, obs: seq<Observation>, n: nat, limit: nat, now: Time)
    requires n < |obs|
    ensures var before := Unrated(health, obs, n, limit, now);
      Unrated(health, obs, n + 1, limit, now)
        == if Outdated(limit, now, obs[n]) && obs[n].resource in before then before[obs[n].resource := Unknown] else before
  {
    hide Outdated;
  }

  ghost predicate NamedIn(s: Snapshot, keys: set<string>, fallback: nat, now: Time, h: string) {
    exists k :: k in keys && k in s.results && Names(s.results[k].observations, |s.results[k].observations|, Limit(s, k, fallback), now, h)
  }

  /** The ratings after the results stored under `keys` have been expired. */
  ghost function Withered(s: Snapshot, keys: set<string>, fallback: nat, now: Time): (r: map<string, Health>) {
    map h | h in s.health :: if NamedIn(s, keys, fallback, now, h) then Unknown else s.health[h]
  }

  lemma WitheredNone(s: Snapshot, fallback: nat, now: Time)
    ensures Withered(s, {}, fallback, now) == s.health && Aging(s, {}, fallback, now) == s.results
  {
  }

  lemma WitheredOne(s: Snapshot, keys: set<string>, k: string, fallback: nat, now: Time, before: map<string, Health>, health: map<string, Health>)
    requires k in s.results && before == Withered(s, keys, fallback, now)
    requires health == Unrated(before, s.results[k].observations, |s.results[k].observations|, Limit(s, k, fallback), now)
    ensures health == Withered(s, keys + {k}, fallback, now)
  {
    hide Names, Limit;
    forall h | h in s.health
      ensures NamedIn(s, keys + {k}, fallback, now, h)
        <==> NamedIn(s, keys, fallback, now, h) || Names(s.results[k].observations, |s.results[k].observations|, Limit(s, k, fallback), now, h)
    {
    }
  }

  /** The results after those stored under `keys` have been expired. */
  ghost function Aging(s: Snapshot, keys: set<string>, fallback: nat, now: Time): (r: map<string, CheckResult>) {
    map k | k in s.results :: if k in keys then ExpireResult(Limit(s, k, fallback), now, s.health.Keys, s.results[k]) else s.results[k]
  }

  lemma AgingOne(s: Snapshot, keys: set<string>, k: string, fallback: nat, now: Time)
    requires k in s.results && k !in keys
    ensures k in Aging(s, keys, fallback, now) && Aging(s, keys, fallback, now)[k] == s.results[k]
    ensures Aging(s, keys + {k}, fallback, now)
         == Aging(s, keys, fallback, now)[k := ExpireResult(Limit(s, k, fallback), now, s.health.Keys, s.results[k])]
  {
    hide ExpireResult, Limit;
  }

  /** The findings after those under `ids` have been looked at. */
  ghost function WitheredFindings(findings: map<string, Finding>, ids: set<string>, fallback: nat, now: Time): (r: map<string, Finding>) {
    map id | id in findings :: if id in ids && Expires(fallback, now, findings[id]) then findings[id].(stale := true) else findings[id]
  }

  lemma FindingsNone(findings: map<string, Finding>, ids: seq<string>, fallback: nat, now: Time)
    ensures WitheredFindings(findings, First(ids, 0), fallback, now) == findings
  {
    hide Expires;
  }

  ghost predicate IsListing(ids: seq<string>, keys: set<string>) {
    && (forall id :: id in keys ==> id in ids)
    && (forall i, j :: 0 <= i < j < |ids| ==> ids[i] != ids[j])
  }

  method ListKeys(findings: map<string, Finding>) returns (ids: seq<string>)
    ensures ids == Keys(findings.Keys) && IsListing(ids, findings.Keys)
  {
    hide Less;
    ids := KeysInOrder(findings.Keys);
  }

  /** The first `n` identifiers. */
  ghost function First(ids: seq<string>, n: nat): (r: set<string>)
    requires n <= |ids|
  {
    set i | 0 <= i < n :: ids[i]
  }

  lemma FindingsOne(findings: map<string, Finding>, ids: seq<string>, n: nat, fallback: nat, now: Time)
    requires n < |ids| && ids[n] in findings && IsListing(ids, findings.Keys)
    ensures var w := WitheredFindings(findings, First(ids, n), fallback, now);
      && ids[n] in w && w[ids[n]] == findings[ids[n]]
      && WitheredFindings(findings, First(ids, n + 1), fallback, now)
           == if Expires(fallback, now, findings[ids[n]]) then w[ids[n] := findings[ids[n]].(stale := true)] else w
  {
    hide Expires;
    assert First(ids, n + 1) == First(ids, n) + {ids[n]};
  }

  lemma NotesOne(findings: map<string, Finding>, ids: seq<string>, n: nat, fallback: nat, now: Time)
    requires n < |ids| && forall k :: 0 <= k < |ids| ==> ids[k] in findings
    ensures var f := findings[ids[n]];
      ExpireNotes(findings, ids[n..], fallback, now)
        == (if Expires(fallback, now, f) then [Transition(now, f.id, WentStale)] else []) + ExpireNotes(findings, ids[n + 1..], fallback, now)
  {
    hide Expires;
    assert ids[n..][1..] == ids[n + 1..];
  }

  lemma NotesEnd(findings: map<string, Finding>, ids: seq<string>, fallback: nat, now: Time)
    requires forall k :: 0 <= k < |ids| ==> ids[k] in findings
    ensures ExpireNotes(findings, ids[|ids|..], fallback, now) == []
  {
  }

  lemma FindingsAll(findings: map<string, Finding>, ids: seq<string>)
    requires IsListing(ids, findings.Keys) && forall k :: 0 <= k < |ids| ==> ids[k] in findings
    ensures First(ids, |ids|) == findings.Keys
  {
  }

  lemma ExpireParts(s: Snapshot, fallback: nat, now: Time)
    ensures ExpireSnapshot(s, fallback, now)
         == s.(results := Aging(s, s.results.Keys, fallback, now), health := Withered(s, s.results.Keys, fallback, now),
               findings := WitheredFindings(s.findings, s.findings.Keys, fallback, now))
  {
    hide Outdated, Limit, ExpireResult, Expires;
    forall h | h in s.health
      ensures NamedIn(s, s.results.Keys, fallback, now, h) <==> IsOutdated(s, fallback, now, h)
    {
    }
  }

  // ---------------------------------------------------------------- reload

  lemma KeptAll(results: map<string, CheckResult>, retired: map<string, Transition>, findings: map<string, Finding>,
                jobs: seq<Job>, moved: set<string>, reselected: set<string>)
    ensures KeptResults(results, jobs, 0, moved, reselected) == results
    ensures KeptRetired(retired, jobs, 0, moved) == retired
    ensures KeptFindings(findings, jobs, 0, moved) == findings
  {
    hide StartsWith, Concerns;
  }

  lemma KeptOne(results: map<string, CheckResult>, retired: map<string, Transition>, findings: map<string, Finding>,
                jobs: seq<Job>, n: nat, moved: set<string>, reselected: set<string>)
    requires n < |jobs|
    ensures var job := jobs[n]; var kept := KeptResults(results, jobs, n, moved, reselected);
      KeptResults(results, jobs, n + 1, moved, reselected) == if job.key in moved || job.key in reselected then kept - {job.key} else kept
    ensures var job := jobs[n]; var kept := KeptRetired(retired, jobs, n, moved);
      KeptRetired(retired, jobs, n + 1, moved)
        == if job.key in moved then map id | id in kept && !StartsWith(id, job.target + "/") :: kept[id] else kept
    ensures var job := jobs[n]; var kept := KeptFindings(findings, jobs, n, moved);
      KeptFindings(findings, jobs, n + 1, moved)
        == if job.key in moved then map id | id in kept && !Concerns(job, kept[id]) :: kept[id] else kept
  {
    hide StartsWith, Concerns;
  }

  // ---------------------------------------------------------------- the state

  class State {
    var results: map<string, CheckResult>
    var findings: map<string, Finding>
    var retired: map<string, Transition>
    var confirmations: map<string, Confirmation>
    var health: map<string, Health>
    var freshness: map<string, nat>

    constructor ()
      ensures Snap() == Snapshot(map[], map[], map[], map[], map[], map[])
    {
      results, findings, retired, confirmations, health, freshness := map[], map[], map[], map[], map[], map[];
    }

    ghost function Snap(): (r: Snapshot)
      reads this
    {
      Snapshot(results, findings, retired, confirmations, health, freshness)
    }

    /** A one-off run keeps unresolved findings and nothing it would compare them with. */
    method BeginRun()
      modifies this
      ensures Snap() == Begin(old(Snap()))
    {
      results := map[];
      health := map[];
      confirmations := map[];
    }

    method TrimRetired(limit: nat)
      modifies `retired
      ensures retired == Trim(old(retired), limit)
    {
      hide Trim, Gone, IsOldestFirst;
      var excess := SatSub(|retired|, limit);
      var oldest := OldestFirst(retired);
      ghost var was := retired;
      NoneGone(was, oldest);
      var i := 0;
      while i < excess
        invariant 0 <= i <= excess <= |oldest|
        invariant retired == was - Gone(oldest, i)
      {
        OneMoreGone(was, oldest, i);
        retired := retired - {oldest[i].1};
        i := i + 1;
      }
      TrimIsGone(was, limit, oldest);
    }

    // -------------------------------------------------------------- the scan

    ghost function Scanning(current: set<string>, clear: map<string, Reading>, capped: bool, remaining: nat, transitions: seq<Transition>): (r: Scan)
      reads `findings, `retired, `health
    {
      Scan(findings, retired, health, current, clear, capped, remaining, transitions)
    }

    /** The findings the policy reports for one observation. */
    method ReportFindings(z: Sizes, job: Job, now: Time, o: Observation, prior: Option<Observation>, fs: seq<Finding>, clear: map<string, Reading>,
                          current0: set<string>, capped0: bool, remaining0: nat, transitions0: seq<Transition>)
      returns (current: set<string>, capped: bool, remaining: nat, transitions: seq<Transition>)
      modifies `findings, `retired
      ensures Scanning(current, clear, capped, remaining, transitions)
           == ReportAll(z, job, now, o, prior, fs, old(Scanning(current0, clear, capped0, remaining0, transitions0)))
    {
      current, capped, remaining, transitions := current0, capped0, remaining0, transitions0;
      ghost var target := ReportAll(z, job, now, o, prior, fs, Scanning(current, clear, capped, remaining, transitions));
      var i := 0;
      while i < |fs|
        invariant 0 <= i <= |fs|
        invariant health == old(health)
        invariant ReportAll(z, job, now, o, prior, fs[i..], Scanning(current, clear, capped, remaining, transitions)) == target
      {
        ghost var before := Scanning(current, clear, capped, remaining, transitions);
        var f := Dress(job, o, fs[i]);
        current := current + {f.id};
        var previous := Previous(findings, f.id);
        var admission := Admit(z, Capture(job, o, prior, previous), previous, remaining);
        remaining := admission.remaining;
        f := f.(diagnostic := admission.diagnostic);
        if previous.None? && |findings| >= job.maxFindings {
          capped := true;
        } else {
          var change := Change(previous, f.id in retired, f.severity);
          if change.Some? {
            transitions := transitions + [Transition(now, f.id, change.value)];
          }
          retired := retired - {f.id};
          findings := findings[f.id := f];
        }
        assert Scanning(current, clear, capped, remaining, transitions) == Report(z, job, now, o, prior, fs[i], before);
        assert fs[i..][1..] == fs[i + 1..];
        i := i + 1;
      }
    }

    /** The assessment loop over the bounded result. */
    method AssessResult(z: Sizes, x: Input, complete: set<string>, previous: Option<CheckResult>, obs: seq<Observation>, budget: nat)
      returns (current: set<string>, clear: map<string, Reading>, capped: bool, remaining: nat, transitions: seq<Transition>)
      modifies `findings, `retired, `health
      ensures Scanning(current, clear, capped, remaining, transitions)
           == AssessAll(z, x.job, x.policy, x.now, complete, previous, 0, obs, old(Scanning({}, map[], false, budget, [])))
    {
      hide ReportAll, Evaluate, HealthEvidence;
      current, clear, capped, remaining, transitions := {}, map[], false, budget, [];
      ghost var target := AssessAll(z, x.job, x.policy, x.now, complete, previous, 0, obs, Scanning(current, clear, capped, remaining, transitions));
      var i := 0;
      while i < |obs|
        invariant 0 <= i <= |obs|
        invariant AssessAll(z, x.job, x.policy, x.now, complete, previous, i, obs, Scanning(current, clear, capped, remaining, transitions)) == target
      {
        ghost var before := Scanning(current, clear, capped, remaining, transitions);
        var o := obs[i];
        var evaluation := Evaluate(x.job, x.policy, previous, i, o);
        var whole := o.operation in complete;
        if Assessed(x.job, o) && HealthEvidence(o.data) {
          health := health[o.resource := if !whole && Clears(evaluation.health) then Unknown else evaluation.health];
        }
        if whole && Clears(evaluation.health) {
          clear := clear[o.resource := Reading(o.operation, o.observedAt)];
        }
        assert Scanning(current, clear, capped, remaining, transitions) == Rate(x.job, complete, o, evaluation, before);
        current, capped, remaining, transitions :=
          ReportFindings(z, x.job, x.now, o, Prior(previous, o.resource), evaluation.findings, clear, current, capped, remaining, transitions);
        i := i + 1;
      }
    }

    /** A limit reached late in the scan withdraws earlier healthy ratings. */
    method Withdraw(obs: seq<Observation>, complete: set<string>)
      modifies `health
      ensures health == Downgrade(obs, complete, old(health))
    {
      ghost var target := Downgrade(obs, complete, health);
      var i := 0;
      while i < |obs|
        invariant 0 <= i <= |obs|
        invariant Downgrade(obs[i..], complete, health) == target
      {
        var o := obs[i];
        if o.operation !in complete && o.resource in health && Clears(health[o.resource]) {
          health := health[o.resource := Unknown];
        }
        assert obs[i..][1..] == obs[i + 1..];
        i := i + 1;
      }
    }

    // -------------------------------------------------------------- recovery and removal

    /** The loop over the stored findings, in key order. */
    method Settle(job: Job, now: Time, x: Facts, transitions0: seq<Transition>)
      returns (transitions: seq<Transition>, removed: seq<(string, Kind)>)
      modifies `findings, `confirmations
      ensures Settling(findings, confirmations, transitions, removed)
           == SettleAll(job, now, x, Keys(old(findings.Keys)), Settling(old(findings), old(confirmations), transitions0, []))
    {
      hide Less, SettleAll;
      var ids := KeysInOrder(findings.Keys);
      transitions, removed := SettleIds(job, now, x, ids, transitions0);
    }

    method SettleIds(job: Job, now: Time, x: Facts, ids: seq<string>, transitions0: seq<Transition>)
      returns (transitions: seq<Transition>, removed: seq<(string, Kind)>)
      requires forall k :: 0 <= k < |ids| ==> ids[k] in findings
      modifies `findings, `confirmations
      ensures Settling(findings, confirmations, transitions, removed)
           == SettleAll(job, now, x, ids, Settling(old(findings), old(confirmations), transitions0, []))
    {
      hide SettleOne;
      transitions, removed := transitions0, [];
      ghost var target := SettleAll(job, now, x, ids, Settling(findings, confirmations, transitions, removed));
      var i := 0;
      while i < |ids|
        invariant 0 <= i <= |ids|
        invariant forall k :: 0 <= k < |ids| ==> ids[k] in findings
        invariant SettleAll(job, now, x, ids[i..], Settling(findings, confirmations, transitions, removed)) == target
      {
        ghost var before := findings;
        transitions, removed := SettleFinding(job, now, x, ids[i], transitions, removed);
        assert findings.Keys == before.Keys;
        assert ids[i..][1..] == ids[i + 1..];
        i := i + 1;
      }
    }

    /** The body of that loop. */
    method SettleFinding(job: Job, now: Time, x: Facts, id: string, transitions0: seq<Transition>, removed0: seq<(string, Kind)>)
      returns (transitions: seq<Transition>, removed: seq<(string, Kind)>)
      requires id in findings
      modifies `findings, `confirmations
      ensures Settling(findings, confirmations, transitions, removed)
           == SettleOne(job, now, x, id, Settling(old(findings), old(confirmations), transitions0, removed0))
    {
      hide ClearTime, CanRemove, AbsenceTime, AbsentNow;
      transitions, removed := transitions0, removed0;
      var f := findings[id];
      var key := ConfirmationKey(job, id);
      if f.resource in x.present {
        confirmations := confirmations - {key};
      }
      if id in x.current {
        return;
      }
      var at := ClearTime(x, f);
      if at.Some? {
        f := Cleared(job, f, at.value);
        findings := findings[id := f];
        if f.clearCount >= job.recoverConfirmations {
          transitions := transitions + [Transition(now, id, Recovered)];
          removed := removed + [(id, Recovered)];
        }
      } else if AbsentNow(job, x, id, f, confirmations) {
        var observedAt := AbsenceTime(x, f);
        var confirmation := if key in confirmations then confirmations[key] else Confirmation(0, f.observedAt);
        if observedAt > confirmation.lastAt {
          confirmation := Confirmation(Increment(confirmation.count), observedAt);
        }
        confirmations := confirmations[key := confirmation];
        if confirmation.count >= job.removalConfirmations {
          transitions := transitions + [Transition(now, id, Removed)];
          removed := removed + [(id, Removed)];
        }
      }
    }

    method RetireAll(now: Time, removed: seq<(string, Kind)>)
      modifies `findings, `confirmations, `retired
      ensures Retiring(findings, confirmations, retired)
           == Retire(now, removed, Retiring(old(findings), old(confirmations), old(retired)))
    {
      hide EndsWith;
      ghost var target := Retire(now, removed, Retiring(findings, confirmations, retired));
      var i := 0;
      while i < |removed|
        invariant 0 <= i <= |removed|
        invariant Retire(now, removed[i..], Retiring(findings, confirmations, retired)) == target
      {
        var (id, kind) := removed[i];
        findings := findings - {id};
        confirmations := map k | k in confirmations && !EndsWith(k, "|" + id) :: confirmations[k];
        retired := retired[id := Transition(now, id, kind)];
        assert removed[i..][1..] == removed[i + 1..];
        i := i + 1;
      }
    }

    // -------------------------------------------------------------- expiry

    method MarkStale(result: CheckResult, limit: nat, now: Time) returns (r: CheckResult)
      modifies `health
      ensures r == ExpireResult(limit, now, old(health.Keys), result)
      ensures health == Unrated(old(health), result.observations, |result.observations|, limit, now)
      ensures health.Keys == old(health.Keys)
    {
      hide Outdated;
      var ops := result.operations;
      ghost var rated := health.Keys;
      for j := 0 to |ops|
        invariant |ops| == |result.operations|
        invariant forall k :: 0 <= k < j ==> ops[k] == Aged(limit, now, result, rated, 0, result.operations[k])
        invariant forall k :: j <= k < |ops| ==> ops[k] == result.operations[k]
      {
        if ops[j].coverage.Complete? && Seconds(now - ops[j].observedAt) > limit {
          ops := ops[j := ops[j].(coverage := Stale)];
        }
      }
      UnratedNone(health, result.observations, limit, now);
      for i := 0 to |result.observations|
        invariant |ops| == |result.operations| && health.Keys == rated
        invariant health == Unrated(old(health), result.observations, i, limit, now)
        invariant forall k :: 0 <= k < |ops| ==> ops[k] == Aged(limit, now, result, rated, i, result.operations[k])
      {
        var o := result.observations[i];
        UnratedOne(old(health), result.observations, i, limit, now);
        ghost var before := ops;
        if Outdated(limit, now, o) && o.resource in health {
          health := health[o.resource := Unknown];
          for j := 0 to |ops|
            invariant |ops| == |before|
            invariant forall k :: 0 <= k < j ==>
                ops[k] == (if before[k].id == o.operation && before[k].coverage.Complete?
                           then before[k].(coverage := Stale) else before[k])
            invariant forall k :: j <= k < |ops| ==> ops[k] == before[k]
          {
            if ops[j].id == o.operation && ops[j].coverage.Complete? {
              ops := ops[j := ops[j].(coverage := Stale)];
            }
          }
        }
        forall k | 0 <= k < |ops|
          ensures ops[k] == Aged(limit, now, result, rated, i + 1, result.operations[k])
        {
          AgedOne(limit, now, result, rated, i, result.operations[k]);
        }
      }
      r := result.(operations := ops);
      AgedAll(limit, now, result, rated, ops);
    }

    method Expire(fallback: nat, now: Time) returns (transitions: seq<Transition>)
      modifies `results, `health, `findings
      ensures Snap() == ExpireSnapshot(old(Snap()), fallback, now)
      ensures transitions == Expired(old(Snap()), fallback, now)
    {
      hide Less, ExpireNotes, ExpireSnapshot, Withered, Aging, WitheredFindings, IsListing;
      ExpireParts(Snap(), fallback, now);
      ExpireResults(fallback, now);
      transitions := ExpireFindings(fallback, now);
    }

    method ExpireFindings(fallback: nat, now: Time) returns (transitions: seq<Transition>)
      modifies `findings
      ensures findings == WitheredFindings(old(findings), old(findings.Keys), fallback, now)
      ensures transitions == ExpireNotes(old(findings), Keys(old(findings.Keys)), fallback, now)
    {
      hide Less, ExpireNotes, WitheredFindings, IsListing;
      var ids := ListKeys(findings);
      transitions := ExpireIds(ids, fallback, now);
    }

    method ExpireResults(fallback: nat, now: Time)
      modifies `results, `health
      ensures results == Aging(old(Snap()), old(results.Keys), fallback, now)
      ensures health == Withered(old(Snap()), old(results.Keys), fallback, now)
    {
      hide Withered, Aging, ExpireResult, Unrated;
      ghost var s := Snap();
      var todo := results.Keys;
      ghost var done: set<string> := {};
      WitheredNone(s, fallback, now);
      while todo != {}
        invariant done + todo == s.results.Keys && done !! todo && freshness == s.freshness && health.Keys == s.health.Keys
        invariant results == Aging(s, done, fallback, now)
        invariant health == Withered(s, done, fallback, now)
        decreases |todo|
      {
        var k :| k in todo;
        AgingOne(s, done, k, fallback, now);
        ghost var before := health;
        var aged := MarkStale(results[k], if k in freshness then freshness[k] else fallback, now);
        WitheredOne(s, done, k, fallback, now, before, health);
        results := results[k := aged];
        todo, done := todo - {k}, done + {k};
      }
      assert done == s.results.Keys;
    }

    method ExpireIds(ids: seq<string>, fallback: nat, now: Time) returns (transitions: seq<Transition>)
      requires forall k :: 0 <= k < |ids| ==> ids[k] in findings
      requires IsListing(ids, findings.Keys)
      modifies `findings
      ensures findings == WitheredFindings(old(findings), old(findings.Keys), fallback, now)
      ensures transitions == ExpireNotes(old(findings), ids, fallback, now)
    {
      hide Expires, WitheredFindings, ExpireNotes, IsListing, First;
      ghost var was := findings;
      transitions := [];
      FindingsNone(was, ids, fallback, now);
      var i := 0;
      while i < |ids|
        invariant 0 <= i <= |ids|
        invariant forall k :: 0 <= k < |ids| ==> ids[k] in was
        invariant findings == WitheredFindings(was, First(ids, i), fallback, now)
        invariant transitions + ExpireNotes(was, ids[i..], fallback, now) == ExpireNotes(was, ids, fallback, now)
      {
        FindingsOne(was, ids, i, fallback, now);
        NotesOne(was, ids, i, fallback, now);
        var f := findings[ids[i]];
        if Expires(fallback, now, f) {
          findings := findings[ids[i] := f.(stale := true)];
          transitions := transitions + [Transition(now, f.id, WentStale)];
        }
        i := i + 1;
      }
      NotesEnd(was, ids, fallback, now);
      FindingsAll(was, ids);
    }

    // -------------------------------------------------------------- the step

    /** The pipeline and the scan: what is stored for the job, and what the scan found. */
    method ScanResult(z: Sizes, x: Input)
      returns (result: CheckResult, current: set<string>, clear: map<string, Reading>,
          ghost capped: bool, ghost remaining: nat, transitions: seq<Transition>)
      modifies `findings, `retired, `health
      ensures result == Final(z, old(Snap()), x)
      ensures Scanning(current, clear, capped, remaining, transitions) == Scanned(z, old(Snap()), x)
    {
      hide Prepared, AssessAll, SumResults, SumAssets, SumFindings, Lifecycle.Listed, Cut, CompleteIds, Degrade, Keys;
      ghost var s := Snap();
      var job := x.job;
      var previous := Stored(results, job.key);
      var bytes, assets := ResultTotals(z, results - {job.key});
      var listed := ListFindings(findings);
      result := Prepare(z, job, previous, listed, bytes, x.correlate, x.collected, x.now);
      assert result == Validity(z, s, x);
      var diagnostics := DiagnosticTotal(z, findings);
      var complete := CompleteIds(result.operations);
      result := Bound(result, SatSub(job.maxAssets, assets));
      assert result == Bounded(z, s, x);
      var isCapped, left;
      current, clear, isCapped, left, transitions :=
        AssessResult(z, x, complete, previous, result.observations, SatSub(job.memoryBytes / 4, diagnostics));
      capped, remaining := isCapped, left;
      assert Scanning(current, clear, capped, remaining, transitions) == Scanned(z, s, x);
      if isCapped {
        var operations := MarkTruncated(result.operations);
        result := result.(operations := operations);
      }
    }

    /** Recovery, removal and retirement against the stored result. */
    method SettleResult(z: Sizes, x: Input, result: CheckResult, current: set<string>, clear: map<string, Reading>, transitions0: seq<Transition>,
                        ghost s: Snapshot)
      returns (transitions: seq<Transition>)
      requires result == Final(z, s, x) && results == s.results && confirmations == s.confirmations
      requires Scanned(z, s, x).findings == findings && Scanned(z, s, x).retired == retired
      requires Scanned(z, s, x).current == current && Scanned(z, s, x).clear == clear && Scanned(z, s, x).transitions == transitions0
      modifies `findings, `confirmations, `retired
      ensures transitions == Settled(z, s, x).transitions
      ensures findings == Retired(z, s, x).findings && confirmations == Retired(z, s, x).confirmations
      ensures retired == Trim(Retired(z, s, x).retired, x.job.maxFindings)
    {
      hide Final, Scanned, SettleAll, Retire, Trim, CompleteIds, RetainClear, Resources, Keys;
      var previous := Stored(results, x.job.key);
      var facts := Facts(current, RetainClear(clear, CompleteIds(result.operations)), result.operations,
                         if previous.Some? then Resources(previous.value.observations) else {},
                         Resources(result.observations), result.startedAt);
      assert facts == FactsOf(z, s, x);
      var removed;
      transitions, removed := Settle(x.job, x.now, facts, transitions0);
      assert Settling(findings, confirmations, transitions, removed) == Settled(z, s, x);
      RetireAll(x.now, removed);
      TrimRetired(x.job.maxFindings);
    }

    /** One application of a collected result, without its nested flow step. */
    method Apply(z: Sizes, x: Input) returns (transitions: seq<Transition>)
      modifies this
      ensures Snap() == Step(z, old(Snap()), x)
      ensures transitions == Emitted(z, old(Snap()), x)
    {
      hide Final, Scanned, Settled, Retired, Trim, Downgrade, ExpireSnapshot, Expired, CompleteIds, AllResources;
      ghost var s := Snap();
      var result, current, clear;
      ghost var capped, remaining;
      result, current, clear, capped, remaining, transitions := ScanResult(z, x);
      Withdraw(result.observations, CompleteIds(result.operations));
      transitions := SettleResult(z, x, result, current, clear, transitions, s);
      freshness := freshness[x.job.key := x.job.freshness];
      results := results[x.job.key := result];
      health := map h | h in health && h in AllResources(results) :: health[h];
      assert Snap() == Replaced(z, s, x);
      var stale := Expire(x.job.freshness, x.now);
      transitions := transitions + stale;
    }

    // -------------------------------------------------------------- reload

    /** The first loop of a reload. */
    method DropMoved(jobs: seq<Job>, moved: set<string>, reselected: set<string>)
      modifies `results, `retired, `findings
      ensures results == KeptResults(old(results), jobs, |jobs|, moved, reselected)
      ensures retired == KeptRetired(old(retired), jobs, |jobs|, moved)
      ensures findings == KeptFindings(old(findings), jobs, |jobs|, moved)
    {
      hide Concerns, StartsWith, KeptResults, KeptRetired, KeptFindings;
      KeptAll(results, retired, findings, jobs, moved, reselected);
      for i := 0 to |jobs|
        invariant results == KeptResults(old(results), jobs, i, moved, reselected)
        invariant retired == KeptRetired(old(retired), jobs, i, moved)
        invariant findings == KeptFindings(old(findings), jobs, i, moved)
      {
        var job := jobs[i];
        KeptOne(old(results), old(retired), old(findings), jobs, i, moved, reselected);
        if job.key in moved {
          results := results - {job.key};
          retired := map id | id in retired && !StartsWith(id, job.target + "/") :: retired[id];
          findings := map id | id in findings && !Concerns(job, findings[id]) :: findings[id];
        }
        if job.key in reselected {
          results := results - {job.key};
        }
      }
    }

    /** The jobs after a reload decide what is kept. */
    method Rescope(jobs: seq<Job>, moved: set<string>, reselected: set<string>)
      modifies this
      ensures Snap() == RetainScope(old(Snap()), jobs, moved, reselected)
    {
      hide KeptResults, KeptRetired, KeptFindings, JobFreshness, InScope, SelectedFindings, OwnedConfirmations, Observed;
      DropMoved(jobs, moved, reselected);
      results := InScope(results, JobKeys(jobs));
      health := InScope(health, Observed(jobs, results));
      RefreshLimits(jobs);
      findings := SelectedFindings(findings, jobs);
      confirmations := OwnedConfirmations(confirmations, findings);
    }

    method RefreshLimits(jobs: seq<Job>)
      modifies `freshness
      ensures freshness == JobFreshness(jobs, InScope(old(freshness), JobKeys(jobs)))
    {
      hide InScope;
      freshness := InScope(freshness, JobKeys(jobs));
      ghost var kept := freshness;
      for i := 0 to |jobs|
        invariant JobFreshness(jobs[i..], freshness) == JobFreshness(jobs, kept)
      {
        assert jobs[i..][1..] == jobs[i + 1..];
        freshness := freshness[jobs[i].key := jobs[i].freshness];
      }
    }
  }
}
