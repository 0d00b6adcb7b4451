/**
  What a collected result goes through before it is assessed: `partial_results::retain`,
  `log_recovery::reconcile`, `bounds::truncate` and `bounds::validate_source`.

  Each pass is a method over the result and a function it is proved equal to.
 */
module Pipeline {
  import opened Order
  import opened Evidence

  function OperationBytes(z: Sizes, ops: seq<Operation>): (n: nat) {
    if ops == [] then 0 else z.operation(ops[0]) + OperationBytes(z, ops[1..])
  }

  function ObservationBytes(z: Sizes, obs: seq<Observation>): (n: nat) {
    if obs == [] then 0 else z.observation(obs[0]) + ObservationBytes(z, obs[1..])
  }

  function ResultBytes(z: Sizes, r: CheckResult): (n: nat) {
    OperationBytes(z, r.operations) + ObservationBytes(z, r.observations)
  }

  predicate AllComplete(ops: seq<Operation>) {
    forall i :: 0 <= i < |ops| ==> ops[i].coverage.Complete?
  }

  /** The identifiers of the operations with complete coverage. */
  function CompleteIds(ops: seq<Operation>): (r: set<string>) {
    set i | 0 <= i < |ops| && ops[i].coverage.Complete? :: ops[i].id
  }

  function Resources(obs: seq<Observation>): (r: set<string>) {
    set i | 0 <= i < |obs| :: obs[i].resource
  }

  // ---------------------------------------------------------------- retain

  /** Earlier observations kept without complete coverage, while assets and bytes allow. */
  datatype Kept = Kept(observations: seq<Observation>, operations: set<string>)

  function Keep(z: Sizes, job: Job, earlier: seq<Observation>, seen: set<string>, complete: set<string>,
                available: nat, kept: Kept): (r: Kept)
    decreases |earlier|
  {
    if earlier == [] || |kept.observations| >= job.maxAssets then kept
    else
      var o := earlier[0];
      if o.resource in seen || o.operation in complete then Keep(z, job, earlier[1..], seen, complete, available, kept)
      else
        var bytes := z.observation(o) + 1024;
        if bytes > available then kept
        else Keep(z, job, earlier[1..], seen, complete, available - bytes,
                  Kept(kept.observations + [o], kept.operations + {o.operation}))
  }

  /** The operations the kept observations came from, marked stale, unless already present. */
  function KeepOperations(earlier: seq<Operation>, wanted: set<string>, ops: seq<Operation>): (r: seq<Operation>)
    decreases |earlier|
  {
    if earlier == [] then ops
    else if earlier[0].id in wanted && (forall i | 0 <= i < |ops| :: ops[i].id != earlier[0].id)
    then KeepOperations(earlier[1..], wanted, ops + [earlier[0].(coverage := Stale)])
    else KeepOperations(earlier[1..], wanted, ops)
  }

  function Retained(z: Sizes, job: Job, previous: Option<CheckResult>, result: CheckResult): (r: CheckResult) {
    if AllComplete(result.operations) || previous.None? then result
    else
      var kept := Keep(z, job, previous.value.observations, Resources(result.observations), CompleteIds(result.operations),
                       SatSub(job.memoryBytes / 4, ResultBytes(z, result)), Kept(result.observations, {}));
      result.(observations := kept.observations,
              operations := KeepOperations(previous.value.operations, kept.operations, result.operations))
  }

  method Retain(z: Sizes, job: Job, previous: Option<CheckResult>, result: CheckResult) returns (r: CheckResult)
    ensures r == Retained(z, job, previous, result)
  {
    r := result;
    if AllComplete(r.operations) || previous.None? {
      return;
    }
    var past := previous.value;
    var seen, complete := Resources(r.observations), CompleteIds(r.operations);
    var kept: set<string> := {};
    var available: nat := SatSub(job.memoryBytes / 4, ResultBytes(z, r));
    ghost var target := Keep(z, job, past.observations, seen, complete, available, Kept(r.observations, {}));
    var i := 0;
    while i < |past.observations|
      invariant 0 <= i <= |past.observations|
      invariant r == result.(observations := r.observations)
      invariant Keep(z, job, past.observations[i..], seen, complete, available, Kept(r.observations, kept)) == target
    {
      if |r.observations| >= job.maxAssets {
        break;
      }
      var o := past.observations[i];
      if o.resource !in seen && o.operation !in complete {
        var bytes := z.observation(o) + 1024;
        if bytes > available {
          break;
        }
        available := available - bytes;
        kept := kept + {o.operation};
        r := r.(observations := r.observations + [o]);
      }
      i := i + 1;
    }
    assert target == Kept(r.observations, kept);
    ghost var operations := KeepOperations(past.operations, kept, result.operations);
    i := 0;
    while i < |past.operations|
      invariant 0 <= i <= |past.operations|
      invariant r == result.(observations := target.observations, operations := r.operations)
      invariant KeepOperations(past.operations[i..], kept, r.operations) == operations
    {
      var operation := past.operations[i];
      if operation.id in kept && forall j | 0 <= j < |r.operations| :: r.operations[j].id != operation.id {
        r := r.(operations := r.operations + [operation.(coverage := Stale)]);
      }
      i := i + 1;
    }
  }

  // ---------------------------------------------------------------- log recovery

  /** A complete, gap-free window naming the finding's evidence and ending after it. */
  predicate IsWindow(result: CheckResult, f: Finding, o: Observation) {
    && o.operation in f.evidence
    && o.data.LogWindow? && o.data.complete && o.data.gapSeconds == 0 && o.data.end > f.observedAt
    && o.operation in CompleteIds(result.operations)
  }

  function FindWindow(result: CheckResult, f: Finding, obs: seq<Observation>): (r: Option<Observation>) {
    if obs == [] then None
    else if IsWindow(result, f, obs[0]) then Some(obs[0])
    else FindWindow(result, f, obs[1..])
  }

  function FindResource(obs: seq<Observation>, resource: string): (r: Option<Observation>) {
    if obs == [] then None
    else if obs[0].resource == resource then Some(obs[0])
    else FindResource(obs[1..], resource)
  }

  const OTHER_ERROR: nat := 7

  /** The signature last stored for a resource, or the generic error class. */
  function Signature(previous: Option<CheckResult>, resource: string): (n: nat) {
    if previous.None? then OTHER_ERROR
    else
      var o := FindResource(previous.value.observations, resource);
      if o.Some? && o.value.data.Log? then o.value.data.signature else OTHER_ERROR
  }

  predicate SampleFinding(job: Job, f: Finding) {
    f.rule == "runtime-failure-sample" && StartsWith(f.resource, job.target + "/")
  }

  function ClearReading(f: Finding, window: Observation, signature: nat): (r: Observation) {
    Observation(f.resource, window.operation, window.observedAt, Log(signature, 0))
  }

  function ClearLogs(job: Job, previous: Option<CheckResult>, result: CheckResult, findings: seq<Finding>,
                     clears: seq<Observation>): (r: seq<Observation>)
    decreases |findings|
  {
    if findings == [] then clears
    else
      var f := findings[0];
      var window := FindWindow(result, f, result.observations);
      if !SampleFinding(job, f) || f.resource in Resources(result.observations) || window.None?
      then ClearLogs(job, previous, result, findings[1..], clears)
      else if |result.observations| + |clears| >= job.maxAssets then clears
      else ClearLogs(job, previous, result, findings[1..],
                     clears + [ClearReading(f, window.value, Signature(previous, f.resource))])
  }

  function Reconciled(job: Job, previous: Option<CheckResult>, findings: seq<Finding>, result: CheckResult): (r: CheckResult) {
    if !job.check.Logs? then result
    else result.(observations := result.observations + ClearLogs(job, previous, result, findings, []))
  }

  method Reconcile(job: Job, previous: Option<CheckResult>, findings: seq<Finding>, result: CheckResult) returns (r: CheckResult)
    ensures r == Reconciled(job, previous, findings, result)
  {
    r := result;
    if !job.check.Logs? {
      return;
    }
    var clears: seq<Observation> := [];
    ghost var target := ClearLogs(job, previous, result, findings, []);
    var i := 0;
    while i < |findings|
      invariant 0 <= i <= |findings|
      invariant ClearLogs(job, previous, result, findings[i..], clears) == target
    {
      var f := findings[i];
      var window := FindWindow(result, f, result.observations);
      if SampleFinding(job, f) && f.resource !in Resources(result.observations) && window.Some? {
        if |result.observations| + |clears| >= job.maxAssets {
          break;
        }
        clears := clears + [ClearReading(f, window.value, Signature(previous, f.resource))];
      }
      i := i + 1;
    }
    r := r.(observations := r.observations + clears);
  }

  // ---------------------------------------------------------------- truncation

  /** Complete operations become `to`; the others keep their coverage. */
  function Degrade(ops: seq<Operation>, to: Coverage): (r: seq<Operation>)
    ensures |r| == |ops|
    ensures forall i :: 0 <= i < |r| ==> r[i] == if ops[i].coverage.Complete? then ops[i].(coverage := to) else ops[i]
  {
    seq(|ops|, i requires 0 <= i < |ops| => if ops[i].coverage.Complete? then ops[i].(coverage := to) else ops[i])
  }

  /** The loop every truncating pass runs over the operations. */
  method MarkTruncated(ops: seq<Operation>) returns (r: seq<Operation>)
    ensures r == Degrade(ops, Truncated)
  {
    r := ops;
    for i := 0 to |ops|
      invariant |r| == |ops|
      invariant forall k :: 0 <= k < i ==> r[k] == if ops[k].coverage.Complete? then ops[k].(coverage := Truncated) else ops[k]
      invariant forall k :: i <= k < |ops| ==> r[k] == ops[k]
    {
      if r[i].coverage.Complete? {
        r := r[i := r[i].(coverage := Truncated)];
      }
    }
  }

  function Fitting(z: Sizes, obs: seq<Observation>, used: nat, bytes: nat, assets: nat): (n: nat)
    ensures n <= |obs| && n <= assets
    decreases |obs|
  {
    if obs == [] || assets == 0 || used + z.observation(obs[0]) > bytes then 0
    else 1 + Fitting(z, obs[1..], used + z.observation(obs[0]), bytes, assets - 1)
  }

  function Cut(result: CheckResult, n: nat): (r: CheckResult) {
    if n >= |result.observations| then result
    else result.(observations := result.observations[..n], operations := Degrade(result.operations, Truncated))
  }

  function Truncate(z: Sizes, result: CheckResult, bytes: nat, assets: nat): (r: CheckResult) {
    Cut(result, Fitting(z, result.observations, OperationBytes(z, result.operations), bytes, assets))
  }

  method TruncateResult(z: Sizes, result: CheckResult, bytes: nat, assets: nat) returns (r: CheckResult)
    ensures r == Truncate(z, result, bytes, assets)
  {
    var used: nat := OperationBytes(z, result.operations);
    var retained := 0;
    ghost var target := Fitting(z, result.observations, used, bytes, assets);
    while retained < |result.observations| && retained < assets
      invariant 0 <= retained <= |result.observations| && retained <= assets
      invariant target == retained + Fitting(z, result.observations[retained..], used, bytes, assets - retained)
    {
      used := used + z.observation(result.observations[retained]);
      if used > bytes {
        break;
      }
      retained := retained + 1;
    }
    assert target == retained;
    r := result;
    if retained < |result.observations| {
      var operations := MarkTruncated(result.operations);
      r := r.(observations := result.observations[..retained], operations := operations);
    }
  }

  // ---------------------------------------------------------------- source validation

  /** The coverage one observation leaves its operation with. */
  function Judge(o: Observation, freshness: nat, now: Time, op: Operation): (r: Operation) {
    if op.id != o.operation then op
    else
      var a := if o.data.JobState? && o.data.complete && o.data.failed then op.(coverage := Malformed) else op;
      if Seconds(now - o.observedAt) > freshness && a.coverage.Complete? then a.(coverage := Stale) else a
  }

  function JudgeAll(obs: seq<Observation>, freshness: nat, now: Time, ops: seq<Operation>): (r: seq<Operation>)
    ensures |r| == |ops|
    decreases |obs|
  {
    if obs == [] then ops
    else JudgeAll(obs[1..], freshness, now, seq(|ops|, i requires 0 <= i < |ops| => Judge(obs[0], freshness, now, ops[i])))
  }

  function Validated(result: CheckResult, freshness: nat, now: Time): (r: CheckResult) {
    result.(operations := JudgeAll(result.observations, freshness, now, result.operations))
  }

  method ValidateSource(result: CheckResult, freshness: nat, now: Time) returns (r: CheckResult)
    ensures r == Validated(result, freshness, now)
  {
    var ops := result.operations;
    ghost var target := JudgeAll(result.observations, freshness, now, ops);
    for i := 0 to |result.observations|
      invariant JudgeAll(result.observations[i..], freshness, now, ops) == target
    {
      var o := result.observations[i];
      ghost var before := ops;
      for j := 0 to |ops|
        invariant |ops| == |before|
        invariant forall k :: 0 <= k < j ==> ops[k] == Judge(o, freshness, now, before[k])
        invariant forall k :: j <= k < |ops| ==> ops[k] == before[k]
      {
        var op := ops[j];
        if op.id == o.operation {
          if o.data.JobState? && o.data.complete && o.data.failed {
            op := op.(coverage := Malformed);
          }
          if Seconds(now - o.observedAt) > freshness && op.coverage.Complete? {
            op := op.(coverage := Stale);
          }
        }
        ops := ops[j := op];
      }
      assert ops == seq(|before|, k requires 0 <= k < |before| => Judge(o, freshness, now, before[k]));
    }
    r := result.(operations := ops);
  }

  // ---------------------------------------------------------------- the whole pipeline

  /** Passes between truncation and validation rewrite observations only. */
  type Correlate = seq<Observation> -> seq<Observation>

  /**
    The pipeline: retain, reconcile, truncate, correlate, validate. `elsewhere` is the size of
    the results stored for other jobs.
   */
  function Prepared(z: Sizes, job: Job, previous: Option<CheckResult>, findings: seq<Finding>, elsewhere: nat,
                    correlate: Correlate, collected: CheckResult, now: Time): (r: CheckResult)
  {
    var a := Retained(z, job, previous, collected);
    var b := Reconciled(job, previous, findings, a);
    var c := Truncate(z, b, SatSub(job.memoryBytes / 2, elsewhere), job.maxAssets);
    Validated(c.(observations := correlate(c.observations)), job.freshness, now)
  }

  // ---------------------------------------------------------------- coverage only degrades

  /** `b` extends `a`, complete only where `a` is, and nothing it adds is complete. */
  ghost predicate NoMoreComplete(a: seq<Operation>, b: seq<Operation>) {
    && |a| <= |b|
    && (forall i :: 0 <= i < |a| ==> b[i].id == a[i].id && (b[i].coverage.Complete? ==> a[i].coverage.Complete?))
    && (forall i :: |a| <= i < |b| ==> !b[i].coverage.Complete?)
  }

  lemma DegradedTrans(a: seq<Operation>, b: seq<Operation>, c: seq<Operation>)
    requires NoMoreComplete(a, b) && NoMoreComplete(b, c)
    ensures NoMoreComplete(a, c)
  {
    forall i | 0 <= i < |a|
      ensures c[i].id == a[i].id && (c[i].coverage.Complete? ==> a[i].coverage.Complete?)
    {
      assert b[i].id == a[i].id;
    }
  }

  lemma {:induction false} KeepDegraded(earlier: seq<Operation>, wanted: set<string>, ops: seq<Operation>)
    ensures NoMoreComplete(ops, KeepOperations(earlier, wanted, ops))
    decreases |earlier|
  {
    if earlier != [] {
      var grown := ops + [earlier[0].(coverage := Stale)];
      KeepDegraded(earlier[1..], wanted, ops);
      KeepDegraded(earlier[1..], wanted, grown);
      if earlier[0].id in wanted && forall i | 0 <= i < |ops| :: ops[i].id != earlier[0].id {
        DegradedTrans(ops, grown, KeepOperations(earlier[1..], wanted, grown));
      }
    }
  }

  lemma {:induction false} JudgeDegraded(obs: seq<Observation>, freshness: nat, now: Time, ops: seq<Operation>)
    ensures NoMoreComplete(ops, JudgeAll(obs, freshness, now, ops))
    decreases |obs|
  {
    if obs != [] {
      var next := seq(|ops|, i requires 0 <= i < |ops| => Judge(obs[0], freshness, now, ops[i]));
      JudgeDegraded(obs[1..], freshness, now, next);
      DegradedTrans(ops, next, JudgeAll(obs[1..], freshness, now, next));
    }
  }

  /**
    No pass grants coverage: an operation complete after the pipeline was collected as complete,
    under the same identifier and position, and everything retained is incomplete.
   */
  lemma CoverageOnlyDegrades(z: Sizes, job: Job, previous: Option<CheckResult>, findings: seq<Finding>, elsewhere: nat,
                             correlate: Correlate, collected: CheckResult, now: Time)
    ensures NoMoreComplete(collected.operations, Prepared(z, job, previous, findings, elsewhere, correlate, collected, now).operations)
  {
    var a := Retained(z, job, previous, collected);
    if previous.Some? {
      var kept := Keep(z, job, previous.value.observations, Resources(collected.observations), CompleteIds(collected.operations),
                       SatSub(job.memoryBytes / 4, ResultBytes(z, collected)), Kept(collected.observations, {}));
      KeepDegraded(previous.value.operations, kept.operations, collected.operations);
    }
    assert NoMoreComplete(collected.operations, a.operations);
    var b := Reconciled(job, previous, findings, a);
    var c := Truncate(z, b, SatSub(job.memoryBytes / 2, elsewhere), job.maxAssets);
    assert NoMoreComplete(a.operations, c.operations);
    JudgeDegraded(correlate(c.observations), job.freshness, now, c.operations);
    DegradedTrans(collected.operations, a.operations, c.operations);
    DegradedTrans(collected.operations, c.operations, JudgeAll(correlate(c.observations), job.freshness, now, c.operations));
  }
}
