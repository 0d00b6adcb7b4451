/**
  One step of the finding lifecycle as functions of the snapshot: `State::apply`, `expire`,
  `trim_retired`, `begin_run`, `retain_scope` and the comparison `Index`.

  The health policy is an arbitrary function, so every theorem holds for every policy.
 */
module Lifecycle {
  import opened Order
  import opened Evidence
  import opened Pipeline

  /**
    What the policy answers for the i-th observation, given its prior reading. The index lets
    the answer depend on anything that happened earlier in the scan.
   */
  type Policy = (nat, Observation, Option<Observation>) -> Evaluation

  datatype Input = Input(job: Job, collected: CheckResult, policy: Policy, correlate: Correlate, now: Time)

  // ---------------------------------------------------------------- sums over maps

  function FindingBytes(z: Sizes, f: Finding): (n: nat) {
    if f.diagnostic.None? then 0 else DiagnosticBytes(z, f.diagnostic.value)
  }

  function DiagnosticBytes(z: Sizes, d: Diagnostic): (n: nat) { z.observation(d.observation) + 256 }

  ghost function SumFindings(z: Sizes, m: map<string, Finding>): (n: nat) {
    if m == map[] then 0 else var k :| k in m; FindingBytes(z, m[k]) + SumFindings(z, m - {k})
  }

  /** Bytes and assets of the results stored under other keys. */
  ghost function SumResults(z: Sizes, m: map<string, CheckResult>): (n: nat) {
    if m == map[] then 0 else var k :| k in m; ResultBytes(z, m[k]) + SumResults(z, m - {k})
  }

  ghost function SumAssets(m: map<string, CheckResult>): (n: nat) {
    if m == map[] then 0 else var k :| k in m; |m[k].observations| + SumAssets(m - {k})
  }

  // ---------------------------------------------------------------- the comparison index

  /** The last observation of the resource in the previous result under a complete operation. */
  function Prior(previous: Option<CheckResult>, resource: string): (r: Option<Observation>) {
    if previous.None? then None
    else PriorIn(previous.value.observations, CompleteIds(previous.value.operations), resource)
  }

  function PriorIn(obs: seq<Observation>, complete: set<string>, resource: string): (r: Option<Observation>) {
    if obs == [] then None
    else
      var o := obs[|obs| - 1];
      if o.resource == resource && o.operation in complete then Some(o)
      else PriorIn(obs[..|obs| - 1], complete, resource)
  }

  /** A clear reading: the operation it came under and its time. */
  datatype Reading = Reading(operation: string, at: Time)

  // ---------------------------------------------------------------- the assessment scan

  datatype Scan = Scan(
    findings: map<string, Finding>,
    retired: map<string, Transition>,
    health: map<string, Health>,
    current: set<string>,
    clear: map<string, Reading>,
    capped: bool,               // the finding cap was hit: complete operations become truncated
    remaining: nat,             // diagnostic bytes left
    transitions: seq<Transition>)

  function Min(a: Time, b: Time): (r: Time) { if a <= b then a else b }

  /** The fields the step fills in before it compares a finding with its predecessor. */
  function Dress(job: Job, o: Observation, f: Finding): (r: Finding)
    ensures r.id == f.id && r.clearCount == 0
  {
    var until := f.observedAt + job.freshness * SECOND;
    f.(check := Some(job.check),
       validUntil := Some(if o.data.Provenance? then Min(until, o.data.validUntil) else until),
       severity := if f.rule in job.severity then job.severity[f.rule] else f.severity,
       clearCount := 0)
  }

  /** The restart count of the same container at the prior reading. */
  function Restarts(o: Observation, prior: Option<Observation>): (n: Option<nat>) {
    if prior.Some? && prior.value.data.Pod? && o.data.Pod?
       && prior.value.data.uid == o.data.uid && prior.value.data.container == o.data.container
    then Some(prior.value.data.restarts) else None
  }

  /** The first detection belongs to the episode: it survives re-detection. */
  function Capture(job: Job, o: Observation, prior: Option<Observation>, previous: Option<Finding>): (r: Diagnostic) {
    var first :=
      match previous
      case None => Some(o.observedAt)
      case Some(f) => if f.diagnostic.Some? then f.diagnostic.value.firstDetectedAt else None;
    Diagnostic(first, o.observedAt, o, Restarts(o, prior), if o.data.Workload? && o.data.node then job.nodeGrace else job.rolloutGrace)
  }

  datatype Admission = Admission(diagnostic: Option<Diagnostic>, remaining: nat)

  /** The predecessor's bytes are available to its successor; without room the old trigger stays. */
  function Admit(z: Sizes, d: Diagnostic, previous: Option<Finding>, remaining: nat): (r: Admission) {
    var past := if previous.Some? then previous.value.diagnostic else None;
    var available := remaining + if past.Some? then DiagnosticBytes(z, past.value) else 0;
    if DiagnosticBytes(z, d) <= available then Admission(Some(d), available - DiagnosticBytes(z, d))
    else Admission(past, remaining)
  }

  function Previous(findings: map<string, Finding>, id: string): (r: Option<Finding>) {
    if id in findings then Some(findings[id]) else None
  }

  function Change(previous: Option<Finding>, wasRetired: bool, severity: Severity): (r: Option<Kind>) {
    match previous
    case None => Some(if wasRetired then Reappeared else New)
    case Some(p) =>
      if p.stale then Some(Reappeared)
      else if Rank(severity) > Rank(p.severity) then Some(Worsened)
      else None
  }

  function Note(transitions: seq<Transition>, now: Time, id: string, kind: Option<Kind>): (r: seq<Transition>) {
    if kind.None? then transitions else transitions + [Transition(now, id, kind.value)]
  }

  /** A reported finding that fits the cap replaces its predecessor. */
  function Accept(job: Job, now: Time, o: Observation, f: Finding, admission: Admission, s: Scan): (r: Scan) {
    var dressed := Dress(job, o, f).(diagnostic := admission.diagnostic);
    s.(current := s.current + {f.id},
       remaining := admission.remaining,
       transitions := Note(s.transitions, now, f.id, Change(Previous(s.findings, f.id), f.id in s.retired, dressed.severity)),
       retired := s.retired - {f.id},
       findings := s.findings[f.id := dressed])
  }

  /** One finding reported by the policy; a new one beyond the cap is refused. */
  function Report(z: Sizes, job: Job, now: Time, o: Observation, prior: Option<Observation>, f: Finding, s: Scan): (r: Scan) {
    var previous := Previous(s.findings, f.id);
    var admission := Admit(z, Capture(job, o, prior, previous), previous, s.remaining);
    if previous.None? && |s.findings| >= job.maxFindings
    then s.(current := s.current + {f.id}, remaining := admission.remaining, capped := true)
    else Accept(job, now, o, f, admission, s)
  }

  function ReportAll(z: Sizes, job: Job, now: Time, o: Observation, prior: Option<Observation>, fs: seq<Finding>, s: Scan): (r: Scan)
    decreases |fs|
  {
    if fs == [] then s else ReportAll(z, job, now, o, prior, fs[1..], Report(z, job, now, o, prior, fs[0], s))
  }

  predicate Assessed(job: Job, o: Observation) {
    job.assessHealth && (!job.check.Releases? || o.data.Build? || o.data.Provenance?)
  }

  function Evaluate(job: Job, policy: Policy, previous: Option<CheckResult>, i: nat, o: Observation): (r: Evaluation) {
    if Assessed(job, o) then policy(i, o, Prior(previous, o.resource)) else Evaluation(Unknown, [])
  }

  /** Health and clear reading of one observation, before its findings. */
  function Rate(job: Job, complete: set<string>, o: Observation, e: Evaluation, s: Scan): (r: Scan) {
    var whole := o.operation in complete;
    var health := if !whole && Clears(e.health) then Unknown else e.health;
    s.(health := if Assessed(job, o) && HealthEvidence(o.data) then s.health[o.resource := health] else s.health,
       clear := if whole && Clears(e.health) then s.clear[o.resource := Reading(o.operation, o.observedAt)] else s.clear)
  }

  function Assess(z: Sizes, job: Job, policy: Policy, now: Time, complete: set<string>, previous: Option<CheckResult>,
                  i: nat, o: Observation, s: Scan): (r: Scan)
  {
    var e := Evaluate(job, policy, previous, i, o);
    ReportAll(z, job, now, o, Prior(previous, o.resource), e.findings, Rate(job, complete, o, e, s))
  }

  function AssessAll(z: Sizes, job: Job, policy: Policy, now: Time, complete: set<string>, previous: Option<CheckResult>,
                     i: nat, obs: seq<Observation>, s: Scan): (r: Scan)
    requires i <= |obs|
    decreases |obs| - i
  {
    if i == |obs| then s
    else AssessAll(z, job, policy, now, complete, previous, i + 1, obs, Assess(z, job, policy, now, complete, previous, i, obs[i], s))
  }

  /** A limit reached late in the scan withdraws earlier healthy ratings too. */
  function Downgrade(obs: seq<Observation>, complete: set<string>, health: map<string, Health>): (r: map<string, Health>)
    decreases |obs|
  {
    if obs == [] then health
    else
      var o := obs[0];
      Downgrade(obs[1..], complete,
                if o.operation !in complete && o.resource in health && Clears(health[o.resource])
                then health[o.resource := Unknown] else health)
  }

  function RetainClear(clear: map<string, Reading>, complete: set<string>): (r: map<string, Reading>) {
    map k | k in clear && clear[k].operation in complete :: clear[k]
  }

  // ---------------------------------------------------------------- recovery and removal

  datatype Settling = Settling(
    findings: map<string, Finding>,
    confirmations: map<string, Confirmation>,
    transitions: seq<Transition>,
    removed: seq<(string, Kind)>)

  /** What the settling loop knows about the stored result. */
  datatype Facts = Facts(
    current: set<string>,
    clear: map<string, Reading>,
    operations: seq<Operation>,
    past: set<string>,          // resources of the previous result
    present: set<string>,       // resources of this result
    startedAt: Time)

  function ConfirmationKey(job: Job, id: string): (r: string) { job.key + "|" + id }

  /** The time of a later clear reading under one of the finding's own operations. */
  function ClearTime(x: Facts, f: Finding): (r: Option<Time>) {
    if f.resource in x.clear && x.clear[f.resource].operation in f.evidence && x.clear[f.resource].at > f.observedAt
    then Some(x.clear[f.resource].at) else None
  }

  predicate CanRemove(x: Facts, f: Finding) {
    f.evidence != [] && forall i | 0 <= i < |f.evidence| :: f.evidence[i] in CompleteIds(x.operations)
  }

  predicate AbsentNow(job: Job, x: Facts, id: string, f: Finding, confirmations: map<string, Confirmation>) {
    && (job.check.Inventory? || job.check.Kubernetes?)
    && CanRemove(x, f)
    && (f.resource in x.past || ConfirmationKey(job, id) in confirmations)
    && f.resource !in x.present
    && StartsWith(f.resource, job.target + "/")
  }

  /** The latest time among the finding's operations, or the start of the result. */
  function EvidenceTime(ops: seq<Operation>, evidence: seq<string>): (r: Option<Time>) {
    if ops == [] then None
    else
      var rest := EvidenceTime(ops[1..], evidence);
      if ops[0].id !in evidence then rest
      else if rest.Some? && rest.value >= ops[0].observedAt then rest
      else Some(ops[0].observedAt)
  }

  function AbsenceTime(x: Facts, f: Finding): (r: Time) {
    var t := EvidenceTime(x.operations, f.evidence);
    if t.Some? then t.value else x.startedAt
  }

  function Confirm(c: Confirmation, at: Time): (r: Confirmation) {
    if at > c.lastAt then Confirmation(Increment(c.count), at) else c
  }

  function Cleared(job: Job, f: Finding, at: Time): (r: Finding) {
    f.(clearCount := Increment(f.clearCount), observedAt := at, validUntil := Some(at + job.freshness * SECOND), stale := false)
  }

  function RecoverOne(job: Job, now: Time, id: string, at: Time, s: Settling): (r: Settling)
    requires id in s.findings
  {
    var f := Cleared(job, s.findings[id], at);
    var t := s.(findings := s.findings[id := f]);
    if f.clearCount >= job.recoverConfirmations
    then t.(transitions := s.transitions + [Transition(now, id, Recovered)], removed := s.removed + [(id, Recovered)])
    else t
  }

  function RemoveOne(job: Job, now: Time, x: Facts, id: string, s: Settling): (r: Settling)
    requires id in s.findings
  {
    var f := s.findings[id];
    var key := ConfirmationKey(job, id);
    var c := if key in s.confirmations then s.confirmations[key] else Confirmation(0, f.observedAt);
    var d := Confirm(c, AbsenceTime(x, f));
    var t := s.(confirmations := s.confirmations[key := d]);
    if d.count >= job.removalConfirmations
    then t.(transitions := s.transitions + [Transition(now, id, Removed)], removed := s.removed + [(id, Removed)])
    else t
  }

  /** One finding of the settling loop. */
  function SettleOne(job: Job, now: Time, x: Facts, id: string, s: Settling): (r: Settling)
    requires id in s.findings
    ensures r.findings.Keys == s.findings.Keys
  {
    var f := s.findings[id];
    var t := if f.resource in x.present then s.(confirmations := s.confirmations - {ConfirmationKey(job, id)}) else s;
    if id in x.current then t
    else
      var at := ClearTime(x, f);
      if at.Some? then RecoverOne(job, now, id, at.value, t)
      else if AbsentNow(job, x, id, f, t.confirmations) then RemoveOne(job, now, x, id, t)
      else t
  }

  function SettleAll(job: Job, now: Time, x: Facts, ids: seq<string>, s: Settling): (r: Settling)
    requires forall i :: 0 <= i < |ids| ==> ids[i] in s.findings
    ensures r.findings.Keys == s.findings.Keys
    decreases |ids|
  {
    if ids == [] then s else SettleAll(job, now, x, ids[1..], SettleOne(job, now, x, ids[0], s))
  }

  /** Removing a finding also forgets every confirmation that ends with its identifier. */
  function Forget(confirmations: map<string, Confirmation>, id: string): (r: map<string, Confirmation>) {
    map k | k in confirmations && !EndsWith(k, "|" + id) :: confirmations[k]
  }

  datatype Retiring = Retiring(
    findings: map<string, Finding>, confirmations: map<string, Confirmation>, retired: map<string, Transition>)

  function Retire(now: Time, removed: seq<(string, Kind)>, s: Retiring): (r: Retiring)
    decreases |removed|
  {
    if removed == [] then s
    else
      var (id, kind) := removed[0];
      Retire(now, removed[1..],
             Retiring(s.findings - {id}, Forget(s.confirmations, id), s.retired[id := Transition(now, id, kind)]))
  }

  // ---------------------------------------------------------------- retirement and expiry

  /** Retired entries by time, then identifier. */
  predicate Older(a: (Time, string), b: (Time, string)) {
    a.0 < b.0 || (a.0 == b.0 && Less(a.1, b.1))
  }

  lemma OlderStrictTotal()
    ensures StrictTotal(Older)
  {
    LessStrictTotal();
  }

  ghost function Ages(retired: map<string, Transition>): (r: set<(Time, string)>)
    ensures |r| == |retired|
  {
    var r := set k | k in retired :: (retired[k].at, k);
    AgesCount(retired, r);
    r
  }

  lemma {:induction false} AgesCount(retired: map<string, Transition>, ages: set<(Time, string)>)
    requires ages == set k | k in retired :: (retired[k].at, k)
    ensures |ages| == |retired|
    decreases |retired|
  {
    if retired == map[] {
      assert ages == {};
    } else {
      var k :| k in retired;
      var rest := retired - {k};
      AgesCount(rest, set j | j in rest :: (rest[j].at, j));
      var fewer := set j | j in rest :: (rest[j].at, j);
      assert (retired[k].at, k) in ages && (retired[k].at, k) !in fewer;
      forall p | p in ages
        ensures p in fewer + {(retired[k].at, k)}
      {
        var j :| j in retired && p == (retired[j].at, j);
        assert j != k ==> j in rest && rest[j] == retired[j];
      }
      forall p | p in fewer
        ensures p in ages
      {
        var j :| j in rest && p == (rest[j].at, j);
        assert j in retired;
      }
      assert ages == fewer + {(retired[k].at, k)};
    }
  }

  /** The oldest entries go first, until at most `limit` remain. */
  ghost function Trim(retired: map<string, Transition>, limit: nat): (r: map<string, Transition>)
  {
    OlderStrictTotal();
    var excess := SatSub(|retired|, limit);
    var gone := set i | 0 <= i < excess :: Sorted(Ages(retired), Older)[i].1;
    retired - gone
  }

  /** Whether an observation no longer speaks for the present. */
  predicate Outdated(limit: nat, now: Time, o: Observation) {
    Seconds(now - o.observedAt) > limit || (o.data.Provenance? && o.data.validUntil < now)
  }

  /** The operations of outdated, rated observations. */
  function OutdatedOperations(obs: seq<Observation>, limit: nat, now: Time, rated: set<string>): (r: set<string>) {
    set i | 0 <= i < |obs| && Outdated(limit, now, obs[i]) && obs[i].resource in rated :: obs[i].operation
  }

  function ExpireOperation(limit: nat, now: Time, outdated: set<string>, op: Operation): (r: Operation) {
    if op.coverage.Complete? && (Seconds(now - op.observedAt) > limit || op.id in outdated) then op.(coverage := Stale) else op
  }

  function ExpireResult(limit: nat, now: Time, rated: set<string>, result: CheckResult): (r: CheckResult) {
    var outdated := OutdatedOperations(result.observations, limit, now, rated);
    result.(operations := seq(|result.operations|, i requires 0 <= i < |result.operations| =>
              ExpireOperation(limit, now, outdated, result.operations[i])))
  }

  function Limit(s: Snapshot, key: string, freshness: nat): (n: nat) {
    if key in s.freshness then s.freshness[key] else freshness
  }

  predicate Expires(freshness: nat, now: Time, f: Finding) {
    !f.stale && (if f.validUntil.Some? then now > f.validUntil.value else Seconds(now - f.observedAt) > freshness)
  }

  function ExpireNotes(findings: map<string, Finding>, ids: seq<string>, freshness: nat, now: Time): (r: seq<Transition>)
    requires forall i :: 0 <= i < |ids| ==> ids[i] in findings
  {
    if ids == [] then []
    else
      var rest := ExpireNotes(findings, ids[1..], freshness, now);
      if Expires(freshness, now, findings[ids[0]]) then [Transition(now, findings[ids[0]].id, WentStale)] + rest else rest
  }

  function IsOutdated(s: Snapshot, freshness: nat, now: Time, resource: string): (r: bool) {
    exists k | k in s.results ::
      exists i | 0 <= i < |s.results[k].observations| ::
        s.results[k].observations[i].resource == resource && Outdated(Limit(s, k, freshness), now, s.results[k].observations[i])
  }

  function ExpireSnapshot(s: Snapshot, freshness: nat, now: Time): (r: Snapshot) {
    s.(results := map k | k in s.results :: ExpireResult(Limit(s, k, freshness), now, s.health.Keys, s.results[k]),
       health := map h | h in s.health :: if IsOutdated(s, freshness, now, h) then Unknown else s.health[h],
       findings := map id | id in s.findings ::
         if Expires(freshness, now, s.findings[id]) then s.findings[id].(stale := true) else s.findings[id])
  }

  ghost function Expired(s: Snapshot, freshness: nat, now: Time): (r: seq<Transition>) {
    ExpireNotes(s.findings, Keys(s.findings.Keys), freshness, now)
  }

  // ---------------------------------------------------------------- the step

  function Stored(results: map<string, CheckResult>, key: string): (r: Option<CheckResult>) {
    if key in results then Some(results[key]) else None
  }

  /** The findings in iteration order. */
  ghost function Listed(findings: map<string, Finding>): (r: seq<Finding>) {
    var ids := Keys(findings.Keys);
    seq(|ids|, i requires 0 <= i < |ids| => findings[ids[i]])
  }

  /** The result after the pipeline, before the shared asset bound. */
  ghost function Validity(z: Sizes, s: Snapshot, x: Input): (r: CheckResult) {
    Prepared(z, x.job, Stored(s.results, x.job.key), Listed(s.findings), SumResults(z, s.results - {x.job.key}),
             x.correlate, x.collected, x.now)
  }

  /** The result the scan reads: the asset bound is shared with the other stored results. */
  ghost function Bounded(z: Sizes, s: Snapshot, x: Input): (r: CheckResult) {
    Cut(Validity(z, s, x), SatSub(x.job.maxAssets, SumAssets(s.results - {x.job.key})))
  }

  ghost function InitialScan(z: Sizes, s: Snapshot, x: Input): (r: Scan) {
    Scan(s.findings, s.retired, s.health, {}, map[], false,
         SatSub(x.job.memoryBytes / 4, SumFindings(z, s.findings)), [])
  }

  ghost function Scanned(z: Sizes, s: Snapshot, x: Input): (r: Scan) {
    AssessAll(z, x.job, x.policy, x.now, CompleteIds(Validity(z, s, x).operations), Stored(s.results, x.job.key),
              0, Bounded(z, s, x).observations, InitialScan(z, s, x))
  }

  /** The result as stored: its operations are truncated when the finding cap was hit. */
  ghost function Final(z: Sizes, s: Snapshot, x: Input): (r: CheckResult) {
    var bounded := Bounded(z, s, x);
    if Scanned(z, s, x).capped then bounded.(operations := Degrade(bounded.operations, Truncated)) else bounded
  }

  ghost function FactsOf(z: Sizes, s: Snapshot, x: Input): (r: Facts) {
    var final := Final(z, s, x);
    var past := Stored(s.results, x.job.key);
    Facts(Scanned(z, s, x).current,
          RetainClear(Scanned(z, s, x).clear, CompleteIds(final.operations)),
          final.operations,
          if past.Some? then Resources(past.value.observations) else {},
          Resources(final.observations),
          final.startedAt)
  }

  ghost function Settled(z: Sizes, s: Snapshot, x: Input): (r: Settling) {
    var scan := Scanned(z, s, x);
    SettleAll(x.job, x.now, FactsOf(z, s, x), Keys(scan.findings.Keys),
              Settling(scan.findings, s.confirmations, scan.transitions, []))
  }

  ghost function Retired(z: Sizes, s: Snapshot, x: Input): (r: Retiring) {
    var t := Settled(z, s, x);
    Retire(x.now, t.removed, Retiring(t.findings, t.confirmations, Scanned(z, s, x).retired))
  }

  function AllResources(results: map<string, CheckResult>): (r: set<string>) {
    set k, i | k in results && 0 <= i < |results[k].observations| :: results[k].observations[i].resource
  }

  /** The snapshot after settling, before expiry. */
  ghost function Replaced(z: Sizes, s: Snapshot, x: Input): (r: Snapshot) {
    var final := Final(z, s, x);
    var t := Retired(z, s, x);
    var results := s.results[x.job.key := final];
    var health := Downgrade(final.observations, CompleteIds(final.operations), Scanned(z, s, x).health);
    Snapshot(results, t.findings, Trim(t.retired, x.job.maxFindings), t.confirmations,
             map h | h in health && h in AllResources(results) :: health[h],
             s.freshness[x.job.key := x.job.freshness])
  }

  /** One application without its nested flow step. */
  ghost function Step(z: Sizes, s: Snapshot, x: Input): (r: Snapshot) {
    ExpireSnapshot(Replaced(z, s, x), x.job.freshness, x.now)
  }

  ghost function Emitted(z: Sizes, s: Snapshot, x: Input): (r: seq<Transition>) {
    Settled(z, s, x).transitions + Expired(Replaced(z, s, x), x.job.freshness, x.now)
  }

  // ---------------------------------------------------------------- the other snapshot operations

  /** A one-off run starts its own baseline and keeps unresolved findings. */
  function Begin(s: Snapshot): (r: Snapshot) {
    s.(results := map[], health := map[], confirmations := map[])
  }

  predicate Contains(s: string, part: string) {
    exists i | 0 <= i <= |s| :: part <= s[i..]
  }

  /** The part after the first bar, or the whole key. */
  function AfterBar(key: string): (r: string) {
    AfterBarFrom(key, key)
  }

  function AfterBarFrom(rest: string, whole: string): (r: string) {
    if rest == [] then whole else if rest[0] == '|' then rest[1..] else AfterBarFrom(rest[1..], whole)
  }

  predicate Concerns(job: Job, f: Finding) {
    StartsWith(f.resource, job.target + "/") && (f.check.None? || f.check.value == job.check)
  }

  predicate Selected(job: Job, f: Finding) {
    && job.assessHealth && Concerns(job, f)
    && (job.selectors == [] || exists i | 0 <= i < |job.selectors| :: Contains(f.resource, job.selectors[i]))
  }

  /** What the first `n` jobs of a reload leave: a moved job loses its results, findings and retired entries. */
  function KeptResults(m: map<string, CheckResult>, jobs: seq<Job>, n: nat,
      moved: set<string>, reselected: set<string>): (r: map<string, CheckResult>)
    requires n <= |jobs|
  {
    map k | k in m && !(exists j | 0 <= j < n :: jobs[j].key == k && (k in moved || k in reselected)) :: m[k]
  }

  function KeptRetired(m: map<string, Transition>, jobs: seq<Job>, n: nat, moved: set<string>): (r: map<string, Transition>)
    requires n <= |jobs|
  {
    map id | id in m && !(exists j | 0 <= j < n :: jobs[j].key in moved && StartsWith(id, jobs[j].target + "/")) :: m[id]
  }

  function KeptFindings(m: map<string, Finding>, jobs: seq<Job>, n: nat, moved: set<string>): (r: map<string, Finding>)
    requires n <= |jobs|
  {
    map id | id in m && !(exists j | 0 <= j < n :: jobs[j].key in moved && Concerns(jobs[j], m[id])) :: m[id]
  }

  function InScope<T>(m: map<string, T>, keys: set<string>): (r: map<string, T>) { map k | k in m && k in keys :: m[k] }

  function JobKeys(jobs: seq<Job>): (r: set<string>) { set i | 0 <= i < |jobs| :: jobs[i].key }

  function SelectedFindings(m: map<string, Finding>, jobs: seq<Job>): (r: map<string, Finding>) {
    map id | id in m && (exists i | 0 <= i < |jobs| :: Selected(jobs[i], m[id])) :: m[id]
  }

  function OwnedConfirmations(m: map<string, Confirmation>, findings: map<string, Finding>): (r: map<string, Confirmation>) {
    map k | k in m && AfterBar(k) in findings :: m[k]
  }

  /** The resources the health-assessing jobs still have results for. */
  function Observed(jobs: seq<Job>, results: map<string, CheckResult>): (r: set<string>) {
    set i, k | 0 <= i < |jobs| && jobs[i].assessHealth && jobs[i].key in results
               && 0 <= k < |results[jobs[i].key].observations|
      :: results[jobs[i].key].observations[k].resource
  }

  /**
    `retain_scope`: `moved` are the jobs whose observation scope is new or different,
    `reselected` those whose resource selectors changed.
   */
  function RetainScope(s: Snapshot, jobs: seq<Job>, moved: set<string>, reselected: set<string>): (r: Snapshot) {
    var results := InScope(KeptResults(s.results, jobs, |jobs|, moved, reselected), JobKeys(jobs));
    var findings := SelectedFindings(KeptFindings(s.findings, jobs, |jobs|, moved), jobs);
    Snapshot(
      results,
      findings,
      KeptRetired(s.retired, jobs, |jobs|, moved),
      OwnedConfirmations(s.confirmations, findings),
      InScope(s.health, Observed(jobs, results)),
      JobFreshness(jobs, InScope(s.freshness, JobKeys(jobs))))
  }

  function JobFreshness(jobs: seq<Job>, m: map<string, nat>): (r: map<string, nat>) {
    if jobs == [] then m else JobFreshness(jobs[1..], m[jobs[0].key := jobs[0].freshness])
  }
}
