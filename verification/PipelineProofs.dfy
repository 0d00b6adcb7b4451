/** What the passes of the pipeline keep and mark, said of the result itself. */
module PipelineProofs {
  import opened Order
  import opened Evidence
  import opened Pipeline

  // ---------------------------------------------------------------- retain

  predicate Wanted(o: Observation, seen: set<string>, complete: set<string>) {
    o.resource !in seen && o.operation !in complete
  }

  /** The earlier observations of resources not collected now, under operations not complete now. */
  function Wants(earlier: seq<Observation>, seen: set<string>, complete: set<string>): (r: seq<Observation>)
    ensures forall o :: o in r <==> o in earlier && Wanted(o, seen, complete)
  {
    if earlier == [] then []
    else (if Wanted(earlier[0], seen, complete) then [earlier[0]] else []) + Wants(earlier[1..], seen, complete)
  }

  /** What keeping an observation costs: its bytes and those of its operation. */
  function Cost(z: Sizes, obs: seq<Observation>): (n: nat) {
    if obs == [] then 0 else z.observation(obs[0]) + 1024 + Cost(z, obs[1..])
  }

  /** The first `n` fit the assets and bytes left, and no longer prefix does. */
  predicate LongestFit(z: Sizes, obs: seq<Observation>, assets: nat, available: nat, n: nat) {
    && n <= |obs| && n <= assets && Cost(z, obs[..n]) <= available
    && (n == |obs| || n == assets || Cost(z, obs[..n + 1]) > available)
  }

  /** One more kept observation, in front. */
  lemma FitPush(z: Sizes, o: Observation, rest: seq<Observation>, assets: nat, available: nat, m: nat)
    requires assets > 0 && z.observation(o) + 1024 <= available
    requires LongestFit(z, rest, assets - 1, available - (z.observation(o) + 1024), m)
    ensures LongestFit(z, [o] + rest, assets, available, m + 1) && ([o] + rest)[..m + 1] == [o] + rest[..m]
  {
    var obs := [o] + rest;
    assert obs[..m + 1] == [o] + rest[..m];
    if m < |rest| {
      assert obs[..m + 2] == [o] + rest[..m + 1];
    }
  }

  lemma FitNone(z: Sizes, o: Observation, rest: seq<Observation>, assets: nat, available: nat)
    requires z.observation(o) + 1024 > available
    ensures LongestFit(z, [o] + rest, assets, available, 0)
  {
    var obs := [o] + rest;
    assert obs[..0] == [] && obs[..1] == [o];
  }

  /** What `Keep` leaves when it takes the observations `added`. */
  predicate Takes(kept: Kept, added: seq<Observation>, r: Kept) {
    r.observations == kept.observations + added && r.operations == kept.operations + Operations(added)
  }

  lemma TakesPush(kept: Kept, o: Observation, added: seq<Observation>, r: Kept)
    requires Takes(Kept(kept.observations + [o], kept.operations + {o.operation}), added, r)
    ensures Takes(kept, [o] + added, r)
  {
    var all := [o] + added;
    assert all[0] == o && forall i :: 0 <= i < |added| ==> all[i + 1] == added[i];
    forall x | x in Operations(added)
      ensures x in Operations(all)
    {
      var i :| 0 <= i < |added| && added[i].operation == x;
      assert all[i + 1].operation == x;
    }
  }

  lemma TakesNone(kept: Kept, wants: seq<Observation>)
    ensures Takes(kept, wants[..0], kept)
  {
  }

  lemma {:induction false} WantsStep(earlier: seq<Observation>, seen: set<string>, complete: set<string>)
    ensures earlier == [] ==> Wants(earlier, seen, complete) == []
    ensures earlier != [] ==>
      var rest := Wants(earlier[1..], seen, complete);
      Wants(earlier, seen, complete) == if Wanted(earlier[0], seen, complete) then [earlier[0]] + rest else rest
  {
  }

  lemma {:induction false} KeepStep(z: Sizes, job: Job, earlier: seq<Observation>, seen: set<string>, complete: set<string>,
                                    available: nat, kept: Kept)
    ensures Keep(z, job, earlier, seen, complete, available, kept)
      == if earlier == [] || |kept.observations| >= job.maxAssets then kept
         else if !Wanted(earlier[0], seen, complete) then Keep(z, job, earlier[1..], seen, complete, available, kept)
         else if z.observation(earlier[0]) + 1024 > available then kept
         else Keep(z, job, earlier[1..], seen, complete, available - (z.observation(earlier[0]) + 1024),
                   Kept(kept.observations + [earlier[0]], kept.operations + {earlier[0].operation}))
  {
  }

  lemma {:induction false} KeepIsPrefix(z: Sizes, job: Job, earlier: seq<Observation>, seen: set<string>, complete: set<string>,
                                        available: nat, kept: Kept) returns (n: nat)
    requires |kept.observations| <= job.maxAssets
    ensures LongestFit(z, Wants(earlier, seen, complete), job.maxAssets - |kept.observations|, available, n)
    ensures n <= |Wants(earlier, seen, complete)|
    ensures Takes(kept, Wants(earlier, seen, complete)[..n], Keep(z, job, earlier, seen, complete, available, kept))
    decreases |earlier|
  {
    hide Takes, Cost, Wants, Keep, LongestFit, Wanted;
    var wants := Wants(earlier, seen, complete);
    var assets := job.maxAssets - |kept.observations|;
    WantsStep(earlier, seen, complete);
    KeepStep(z, job, earlier, seen, complete, available, kept);
    if earlier == [] || assets == 0 {
      n := 0;
      TakesNone(kept, wants);
      FitEmpty(z, wants, assets, available);
    } else if !Wanted(earlier[0], seen, complete) {
      n := KeepIsPrefix(z, job, earlier[1..], seen, complete, available, kept);
    } else {
      var o := earlier[0];
      var rest := Wants(earlier[1..], seen, complete);
      var bytes := z.observation(o) + 1024;
      if bytes > available {
        n := 0;
        FitNone(z, o, rest, assets, available);
        TakesNone(kept, wants);
      } else {
        var more := Kept(kept.observations + [o], kept.operations + {o.operation});
        var m := KeepIsPrefix(z, job, earlier[1..], seen, complete, available - bytes, more);
        n := m + 1;
        FitPush(z, o, rest, assets, available, m);
        TakesPush(kept, o, rest[..m], Keep(z, job, earlier[1..], seen, complete, available - bytes, more));
      }
    }
  }

  lemma FitEmpty(z: Sizes, obs: seq<Observation>, assets: nat, available: nat)
    requires obs == [] || assets == 0
    ensures LongestFit(z, obs, assets, available, 0)
  {
    assert obs[..0] == [];
  }

  function Operations(obs: seq<Observation>): (r: set<string>) { set i | 0 <= i < |obs| :: obs[i].operation }

  lemma {:induction false} KeepOperationsMeans(earlier: seq<Operation>, wanted: set<string>, ops: seq<Operation>)
    ensures var r := KeepOperations(earlier, wanted, ops);
      && ops <= r
      && (forall i :: |ops| <= i < |r| ==> r[i].coverage.Stale? && r[i].id in wanted)
      && (forall i, j :: 0 <= i < j < |r| && |ops| <= j ==> r[i].id != r[j].id)
      && (forall i :: 0 <= i < |earlier| && earlier[i].id in wanted ==> exists j :: 0 <= j < |r| && r[j].id == earlier[i].id)
    decreases |earlier|
  {
    if earlier != [] {
      var rest := earlier[1..];
      var grown := ops + [earlier[0].(coverage := Stale)];
      var r := KeepOperations(earlier, wanted, ops);
      if earlier[0].id in wanted && forall i | 0 <= i < |ops| :: ops[i].id != earlier[0].id {
        KeepOperationsMeans(rest, wanted, grown);
        assert grown[|ops|].id == earlier[0].id;
        assert ops <= grown <= r;
      } else {
        KeepOperationsMeans(rest, wanted, ops);
        if earlier[0].id in wanted {
          var i :| 0 <= i < |ops| && ops[i].id == earlier[0].id;
          assert r[i] == ops[i];
        }
      }
      forall i | 0 <= i < |earlier| && earlier[i].id in wanted
        ensures exists j :: 0 <= j < |r| && r[j].id == earlier[i].id
      {
        if i > 0 {
          assert rest[i - 1] == earlier[i];
        }
      }
    }
  }

  function Quarter(job: Job): (n: nat) { job.memoryBytes / 4 }

  function WantedOf(previous: CheckResult, result: CheckResult): (r: seq<Observation>) {
    Wants(previous.observations, Resources(result.observations), CompleteIds(result.operations))
  }

  function KeptOf(z: Sizes, job: Job, previous: CheckResult, result: CheckResult): (r: Kept) {
    Keep(z, job, previous.observations, Resources(result.observations), CompleteIds(result.operations),
         SatSub(Quarter(job), ResultBytes(z, result)), Kept(result.observations, {}))
  }

  lemma KeptMeans(z: Sizes, job: Job, previous: CheckResult, result: CheckResult) returns (added: seq<Observation>)
    ensures var kept := KeptOf(z, job, previous, result);
      && kept.observations == result.observations + added && kept.operations == Operations(added)
      && added <= WantedOf(previous, result)
      && LongestFit(z, WantedOf(previous, result), SatSub(job.maxAssets, |result.observations|),
                    SatSub(Quarter(job), ResultBytes(z, result)), |added|)
  {
    hide Keep, ResultBytes, CompleteIds, Resources;
    var seen, complete := Resources(result.observations), CompleteIds(result.operations);
    var available := SatSub(Quarter(job), ResultBytes(z, result));
    if |result.observations| <= job.maxAssets {
      var n := KeepIsPrefix(z, job, previous.observations, seen, complete, available, Kept(result.observations, {}));
      added := WantedOf(previous, result)[..n];
      assert {} + Operations(added) == Operations(added);
    } else {
      NothingKept(z, job, previous.observations, seen, complete, available, Kept(result.observations, {}));
      added := [];
      assert WantedOf(previous, result)[..0] == [];
      assert Operations([]) == {};
      assert result.observations + [] == result.observations;
    }
  }

  /**
    An incomplete result keeps, after what was collected, the longest prefix of the earlier
    observations of other resources that fits the assets and what the result leaves of a quarter
    of memory; their operations follow, stale and each once.
   */
  lemma RetainedMeans(z: Sizes, job: Job, previous: CheckResult, result: CheckResult) returns (added: seq<Observation>)
    requires !AllComplete(result.operations)
    ensures var r := Retained(z, job, Some(previous), result);
      && r.observations == result.observations + added && added <= WantedOf(previous, result)
      && LongestFit(z, WantedOf(previous, result), SatSub(job.maxAssets, |result.observations|),
                    SatSub(Quarter(job), ResultBytes(z, result)), |added|)
      && (forall o :: o in added ==> o.resource !in Resources(result.observations) && o.operation !in CompleteIds(result.operations))
      && (added != [] ==> ResultBytes(z, result) + Cost(z, added) <= Quarter(job))
      && result.operations <= r.operations
      && (forall i :: |result.operations| <= i < |r.operations| ==> r.operations[i].coverage.Stale? && r.operations[i].id in Operations(added))
      && (forall i :: 0 <= i < |previous.operations| && previous.operations[i].id in Operations(added) ==>
            exists j :: 0 <= j < |r.operations| && r.operations[j].id == previous.operations[i].id)
  {
    hide Keep, KeepOperations, ResultBytes, CompleteIds, Resources, AllComplete, Operations;
    added := KeptMeans(z, job, previous, result);
    KeepOperationsMeans(previous.operations, Operations(added), result.operations);
    forall o | o in added
      ensures o.resource !in Resources(result.observations) && o.operation !in CompleteIds(result.operations)
    {
      assert o in WantedOf(previous, result);
    }
    if added != [] {
      assert WantedOf(previous, result)[..|added|] == added;
      CostPositive(z, added);
    }
  }

  lemma NothingKept(z: Sizes, job: Job, earlier: seq<Observation>, seen: set<string>, complete: set<string>, available: nat, kept: Kept)
    requires |kept.observations| >= job.maxAssets
    ensures Keep(z, job, earlier, seen, complete, available, kept) == kept
  {
  }

  lemma CostPositive(z: Sizes, obs: seq<Observation>)
    requires obs != []
    ensures Cost(z, obs) > 0
  {
  }

  // ---------------------------------------------------------------- truncation

  /** The kept prefix is the longest one within the bytes and the assets. */
  lemma {:induction false} FittingLongest(z: Sizes, obs: seq<Observation>, used: nat, bytes: nat, assets: nat, m: nat)
    requires m <= |obs|
    ensures m <= Fitting(z, obs, used, bytes, assets) <==> m <= assets && (m == 0 || used + ObservationBytes(z, obs[..m]) <= bytes)
    decreases |obs|
  {
    if m > 0 && assets > 0 {
      FittingLongest(z, obs[1..], used + z.observation(obs[0]), bytes, assets - 1, m - 1);
      assert obs[..m][1..] == obs[1..][..m - 1];
    }
  }

  /**
    Truncation keeps the longest prefix within bytes and assets. Where nothing is cut the result
    stays as it is, and else no operation of it is complete.
   */
  lemma TruncatedMeans(z: Sizes, result: CheckResult, bytes: nat, assets: nat)
    ensures var r := Truncate(z, result, bytes, assets); var n := |r.observations|;
      && r.observations <= result.observations
      && (forall m :: 0 <= m <= |result.observations| ==>
            (m <= n <==> m <= assets && (m == 0 || OperationBytes(z, result.operations) + ObservationBytes(z, result.observations[..m]) <= bytes)))
      && (n == |result.observations| ==> r == result)
      && (n < |result.observations| ==> r.operations == Degrade(result.operations, Truncated) && CompleteIds(r.operations) == {})
  {
    hide Fitting, ObservationBytes, OperationBytes;
    var obs := result.observations;
    var n := Fitting(z, obs, OperationBytes(z, result.operations), bytes, assets);
    forall m | 0 <= m <= |obs|
      ensures m <= n <==> m <= assets && (m == 0 || OperationBytes(z, result.operations) + ObservationBytes(z, obs[..m]) <= bytes)
    {
      FittingLongest(z, obs, OperationBytes(z, result.operations), bytes, assets, m);
    }
  }

  // ---------------------------------------------------------------- log recovery

  predicate Outlasted(job: Job, result: CheckResult, f: Finding) {
    SampleFinding(job, f) && f.resource !in Resources(result.observations) && FindWindow(result, f, result.observations).Some?
  }

  /** The clear readings owed to the findings a window outlasts, in order. */
  function Owed(job: Job, previous: Option<CheckResult>, result: CheckResult, findings: seq<Finding>): (r: seq<Observation>) {
    if findings == [] then []
    else
      var f := findings[0];
      (if Outlasted(job, result, f)
       then [ClearReading(f, FindWindow(result, f, result.observations).value, Signature(previous, f.resource))] else [])
      + Owed(job, previous, result, findings[1..])
  }

  lemma {:induction false} ClearLogsAre(job: Job, previous: Option<CheckResult>, result: CheckResult, findings: seq<Finding>,
      clears: seq<Observation>)
    ensures var owed := Owed(job, previous, result, findings);
      var room := SatSub(job.maxAssets, |result.observations| + |clears|);
      ClearLogs(job, previous, result, findings, clears) == clears + (if |owed| <= room then owed else owed[..room])
    decreases |findings|
  {
    hide FindWindow, Signature, SampleFinding, Resources;
    if findings != [] {
      var f := findings[0];
      if !Outlasted(job, result, f) {
        ClearLogsAre(job, previous, result, findings[1..], clears);
      } else {
        var o := ClearReading(f, FindWindow(result, f, result.observations).value, Signature(previous, f.resource));
        ClearLogsAre(job, previous, result, findings[1..], clears + [o]);
      }
    }
  }

  lemma {:induction false} WindowFound(result: CheckResult, f: Finding, obs: seq<Observation>)
    ensures FindWindow(result, f, obs).Some? <==> exists i :: 0 <= i < |obs| && IsWindow(result, f, obs[i])
    ensures FindWindow(result, f, obs).Some? ==> FindWindow(result, f, obs).value in obs && IsWindow(result, f, FindWindow(result, f, obs).value)
  {
    hide IsWindow;
    if obs != [] {
      WindowFound(result, f, obs[1..]);
      if i :| 0 <= i < |obs| && IsWindow(result, f, obs[i]) {
        assert i > 0 ==> obs[1..][i - 1] == obs[i];
      }
    }
  }

  /**
    A log result gains a clear reading for every runtime finding that is not shown and that one
    of its complete, gap-free windows outlasts, in the order of the findings and as many as the
    asset limit has room for.
   */
  lemma ReconciledMeans(job: Job, previous: Option<CheckResult>, findings: seq<Finding>, result: CheckResult)
    requires job.check.Logs?
    ensures var owed := Owed(job, previous, result, findings);
      var room := SatSub(job.maxAssets, |result.observations|);
      Reconciled(job, previous, findings, result).observations == result.observations + (if |owed| <= room then owed else owed[..room])
    ensures forall f :: Outlasted(job, result, f) <==>
      SampleFinding(job, f) && f.resource !in Resources(result.observations)
      && exists i :: 0 <= i < |result.observations| && IsWindow(result, f, result.observations[i])
  {
    hide IsWindow, SampleFinding, Resources, FindWindow, ClearLogs, Owed;
    ClearLogsAre(job, previous, result, findings, []);
    forall f
      ensures FindWindow(result, f, result.observations).Some?
          <==> exists i :: 0 <= i < |result.observations| && IsWindow(result, f, result.observations[i])
    {
      WindowFound(result, f, result.observations);
    }
  }

  // ---------------------------------------------------------------- source validation

  predicate Failing(o: Observation, op: Operation) { o.operation == op.id && o.data.JobState? && o.data.complete && o.data.failed }

  predicate Late(o: Observation, op: Operation, freshness: nat, now: Time) {
    o.operation == op.id && Seconds(now - o.observedAt) > freshness
  }

  predicate SomeFailing(obs: seq<Observation>, op: Operation) { exists i :: 0 <= i < |obs| && Failing(obs[i], op) }

  predicate SomeLate(obs: seq<Observation>, op: Operation, freshness: nat, now: Time) {
    exists i :: 0 <= i < |obs| && Late(obs[i], op, freshness, now)
  }

  /** The coverage an operation ends with, whatever the order of its observations. */
  function Verdict(obs: seq<Observation>, freshness: nat, now: Time, op: Operation): (r: Operation) {
    if SomeFailing(obs, op) then op.(coverage := Malformed)
    else if op.coverage.Complete? && SomeLate(obs, op, freshness, now) then op.(coverage := Stale)
    else op
  }

  lemma SomeStep(obs: seq<Observation>, op: Operation, freshness: nat, now: Time)
    requires obs != []
    ensures SomeFailing(obs, op) <==> Failing(obs[0], op) || SomeFailing(obs[1..], op)
    ensures SomeLate(obs, op, freshness, now) <==> Late(obs[0], op, freshness, now) || SomeLate(obs[1..], op, freshness, now)
  {
    hide Failing, Late;
    var rest := obs[1..];
    if i :| 0 <= i < |obs| && Failing(obs[i], op) {
      assert i > 0 ==> rest[i - 1] == obs[i];
    }
    if i :| 0 <= i < |rest| && Failing(rest[i], op) {
      assert obs[i + 1] == rest[i];
    }
    if i :| 0 <= i < |obs| && Late(obs[i], op, freshness, now) {
      assert i > 0 ==> rest[i - 1] == obs[i];
    }
    if i :| 0 <= i < |rest| && Late(rest[i], op, freshness, now) {
      assert obs[i + 1] == rest[i];
    }
  }

  lemma SameName(obs: seq<Observation>, a: Operation, b: Operation, freshness: nat, now: Time)
    requires a.id == b.id
    ensures SomeFailing(obs, a) <==> SomeFailing(obs, b)
    ensures SomeLate(obs, a, freshness, now) <==> SomeLate(obs, b, freshness, now)
  {
    if SomeFailing(obs, a) {
      var i :| 0 <= i < |obs| && Failing(obs[i], a);
      assert Failing(obs[i], b);
    }
    if SomeFailing(obs, b) {
      var i :| 0 <= i < |obs| && Failing(obs[i], b);
      assert Failing(obs[i], a);
    }
    if SomeLate(obs, a, freshness, now) {
      var i :| 0 <= i < |obs| && Late(obs[i], a, freshness, now);
      assert Late(obs[i], b, freshness, now);
    }
    if SomeLate(obs, b, freshness, now) {
      var i :| 0 <= i < |obs| && Late(obs[i], b, freshness, now);
      assert Late(obs[i], a, freshness, now);
    }
  }

  lemma VerdictStep(obs: seq<Observation>, freshness: nat, now: Time, op: Operation)
    requires obs != []
    ensures Verdict(obs[1..], freshness, now, Judge(obs[0], freshness, now, op)) == Verdict(obs, freshness, now, op)
  {
    hide SomeFailing, SomeLate;
    SomeStep(obs, op, freshness, now);
    SameName(obs[1..], op, Judge(obs[0], freshness, now, op), freshness, now);
  }

  /**
    Validation leaves an operation malformed if one of its jobs completed as failed, stale if it
    was complete and one of its observations is too old, and else as it was.
   */
  lemma {:induction false} ValidatedMeans(obs: seq<Observation>, freshness: nat, now: Time, ops: seq<Operation>)
    ensures forall i :: 0 <= i < |ops| ==> JudgeAll(obs, freshness, now, ops)[i] == Verdict(obs, freshness, now, ops[i])
    decreases |obs|
  {
    hide Judge, Verdict;
    if obs == [] {
      NoVerdict(freshness, now);
    } else {
      var next := seq(|ops|, i requires 0 <= i < |ops| => Judge(obs[0], freshness, now, ops[i]));
      ValidatedMeans(obs[1..], freshness, now, next);
      forall i | 0 <= i < |ops|
        ensures JudgeAll(obs, freshness, now, ops)[i] == Verdict(obs, freshness, now, ops[i])
      {
        VerdictStep(obs, freshness, now, ops[i]);
      }
    }
  }

  lemma NoVerdict(freshness: nat, now: Time)
    ensures forall op :: Verdict([], freshness, now, op) == op
  {
  }
}
